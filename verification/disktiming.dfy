/** How long a disk request takes (machine/disk.cc): seek, rotation, transfer,
    and the track buffer. */
module DiskTiming {

  import opened Words

  const SECTORS_PER_TRACK := 32
  const NUM_TRACKS := 32
  const DISK_SECTORS := SECTORS_PER_TRACK * NUM_TRACKS

  const ROTATION_TIME := 500
  const SEEK_TIME := 500

  function Seek(lastSector: nat, newSector: nat): nat {
    Abs(newSector / SECTORS_PER_TRACK - lastSector / SECTORS_PER_TRACK) * SEEK_TIME
  }

  /** Time from the end of the seek to the next sector boundary. */
  function Rotation(now: nat, seek: nat): (r: nat)
    ensures r < ROTATION_TIME && (now + seek + r) % ROTATION_TIME == 0
  {
    var over := (now + seek) % ROTATION_TIME;
    if over > 0 then ROTATION_TIME - over else 0
  }

  function ModuloDiff(to: nat, from: nat): (d: nat)
    ensures d < SECTORS_PER_TRACK
  {
    ((to % SECTORS_PER_TRACK - from % SECTORS_PER_TRACK) + SECTORS_PER_TRACK) % SECTORS_PER_TRACK
  }

  /** A sector starts to pass under the head at this time. */
  predicate Passes(sector: nat, t: nat) {
    t % ROTATION_TIME == 0 && (t / ROTATION_TIME) % SECTORS_PER_TRACK == sector % SECTORS_PER_TRACK
  }

  /** The first sector boundary at or after a time. */
  ghost predicate NextBoundary(t: nat, b: nat) {
    t <= b < t + ROTATION_TIME && b % ROTATION_TIME == 0
  }

  /** A sector passes the head completely between the two times. */
  ghost predicate PassedBetween(sector: nat, from: nat, until: nat) {
    exists t: nat :: from <= t && Passes(sector, t) && t + ROTATION_TIME <= until
  }

  /** A sector starts to pass at `start`, and at no time from `from` until then. */
  ghost predicate FirstPassAfter(sector: nat, from: nat, start: int) {
    && from <= start && Passes(sector, start)
    && forall u: nat | from <= u && Passes(sector, u) :: start <= u
  }

  /** The test for the track buffer in ComputeLatency. */
  predicate InTrackBuffer(now: nat, lastSector: nat, bufferInit: nat, newSector: nat, writing: bool) {
    var seek := Seek(lastSector, newSector);
    var timeAfter := now + seek + Rotation(now, seek);
    && !writing && seek == 0
    && (timeAfter - bufferInit) / ROTATION_TIME > ModuloDiff(newSector, bufferInit / ROTATION_TIME)
  }

  function Latency(now: nat, lastSector: nat, bufferInit: nat, newSector: nat, writing: bool): nat {
    var seek := Seek(lastSector, newSector);
    var rotation := Rotation(now, seek);
    var timeAfter := now + seek + rotation;
    if InTrackBuffer(now, lastSector, bufferInit, newSector, writing) then ROTATION_TIME
    else seek + (rotation + ModuloDiff(newSector, timeAfter / ROTATION_TIME) * ROTATION_TIME) + ROTATION_TIME
  }

  /** Turning by ModuloDiff sectors brings the sector under the head. */
  lemma ModuloDiffReaches(to: nat, from: nat)
    ensures (from + ModuloDiff(to, from)) % SECTORS_PER_TRACK == to % SECTORS_PER_TRACK
  {
  }

  /** No smaller turn does. */
  lemma ModuloDiffIsLeast(to: nat, from: nat, d: nat)
    requires (from + d) % SECTORS_PER_TRACK == to % SECTORS_PER_TRACK
    ensures ModuloDiff(to, from) <= d
  {
  }

  /** A sector passes ModuloDiff sectors after a boundary, and not sooner. */
  lemma FirstPass(sector: nat, b: nat)
    requires b % ROTATION_TIME == 0
    ensures FirstPassAfter(sector, b, b + ModuloDiff(sector, b / ROTATION_TIME) * ROTATION_TIME)
  {
    var f := b / ROTATION_TIME;
    var d := ModuloDiff(sector, f);
    ModuloDiffReaches(sector, f);
    assert (b + d * ROTATION_TIME) / ROTATION_TIME == f + d;
    forall u: nat | b <= u && Passes(sector, u)
      ensures b + d * ROTATION_TIME <= u
    {
      ModuloDiffIsLeast(sector, f, u / ROTATION_TIME - f);
    }
  }

  lemma BoundaryIsLeast(from: nat, b: nat, u: nat)
    requires NextBoundary(from, b) && from <= u && u % ROTATION_TIME == 0
    ensures b <= u
  {
  }

  lemma BoundaryIsUnique(from: nat, b: nat, c: nat)
    requires NextBoundary(from, b) && NextBoundary(from, c)
    ensures b == c
  {
    BoundaryIsLeast(from, b, c);
    BoundaryIsLeast(from, c, b);
  }

  /** A request not served from the track buffer transfers the sector the first
      time it passes under the head after the seek, and completes on the
      boundary just as the sector has passed. */
  lemma LatencyIsExact(now: nat, lastSector: nat, bufferInit: nat, newSector: nat, writing: bool)
    requires !InTrackBuffer(now, lastSector, bufferInit, newSector, writing)
    ensures FirstPassAfter(newSector, now + Seek(lastSector, newSector),
                           now + Latency(now, lastSector, bufferInit, newSector, writing) - ROTATION_TIME)
  {
    var seek := Seek(lastSector, newSector);
    var b := now + seek + Rotation(now, seek);
    FirstPass(newSector, b);
    hide InTrackBuffer, ModuloDiff, Seek;
    forall u: nat | now + seek <= u && Passes(newSector, u)
      ensures b <= u
    {
      BoundaryIsLeast(now + seek, b, u);
    }
  }

  /** Every latency is between one sector time and 31999 ticks. */
  lemma LatencyIsBounded(now: nat, lastSector: nat, bufferInit: nat, newSector: nat, writing: bool)
    requires lastSector < DISK_SECTORS && newSector < DISK_SECTORS
    ensures ROTATION_TIME <= Latency(now, lastSector, bufferInit, newSector, writing) <= 31999
  {
  }

  /** A read of the current track is served from the track buffer exactly when
      the sector has passed completely since the buffer began to load. */
  lemma TrackBufferIsExact(now: nat, lastSector: nat, bufferInit: nat, newSector: nat)
    requires bufferInit % ROTATION_TIME == 0 && Seek(lastSector, newSector) == 0
    ensures InTrackBuffer(now, lastSector, bufferInit, newSector, false) <==>
            PassedBetween(newSector, bufferInit, now + Rotation(now, 0))
  {
    var d := ModuloDiff(newSector, bufferInit / ROTATION_TIME);
    var t := bufferInit + d * ROTATION_TIME;
    FirstPass(newSector, bufferInit);
    var after := now + Rotation(now, 0);
    assert (after - bufferInit) / ROTATION_TIME > d <==> t + ROTATION_TIME <= after;
  }

  /** The two cases of a request together. */
  lemma LatencyMeans(now: nat, lastSector: nat, bufferInit: nat, sector: nat, writing: bool)
    requires bufferInit % ROTATION_TIME == 0
    ensures var arrival := now + Seek(lastSector, sector);
            var ticks := Latency(now, lastSector, bufferInit, sector, writing);
            var buffered := !writing && arrival == now
                            && exists b :: NextBoundary(now, b) && PassedBetween(sector, bufferInit, b);
            if buffered then ticks == ROTATION_TIME
            else FirstPassAfter(sector, arrival, now + ticks - ROTATION_TIME)
  {
    if !InTrackBuffer(now, lastSector, bufferInit, sector, writing) {
      LatencyIsExact(now, lastSector, bufferInit, sector, writing);
    }
    if !writing && Seek(lastSector, sector) == 0 {
      TrackBufferIsExact(now, lastSector, bufferInit, sector);
      assert NextBoundary(now, now + Rotation(now, 0));
      hide InTrackBuffer, PassedBetween, FirstPassAfter, Rotation, NextBoundary, Seek, Latency;
      forall b | NextBoundary(now, b)
        ensures b == now + Rotation(now, 0)
      {
        BoundaryIsUnique(now, b, now + Rotation(now, 0));
      }
    }
  }

  class Disk {
    var active: bool
    var lastSector: nat
    var bufferInit: nat

    ghost predicate Valid()
      reads this
    {
      lastSector < DISK_SECTORS && bufferInit % ROTATION_TIME == 0
    }

    constructor ()
      ensures Valid() && !active && lastSector == 0 && bufferInit == 0
    {
      active, lastSector, bufferInit := false, 0, 0;
    }

    /** ReadRequest and WriteRequest, up to scheduling the interrupt after
        `ticks`: ComputeLatency, then UpdateLast. */
    method Request(now: nat, sector: nat, writing: bool) returns (ticks: nat)
      requires Valid() && !active && sector < DISK_SECTORS
      modifies this
      ensures Valid() && active && lastSector == sector
      ensures ROTATION_TIME <= ticks <= 31999
      ensures var arrival := now + Seek(old(lastSector), sector);
              var buffered := !writing && arrival == now
                              && exists b :: NextBoundary(now, b) && PassedBetween(sector, old(bufferInit), b);
              && (if buffered then ticks == ROTATION_TIME
                  else FirstPassAfter(sector, arrival, now + ticks - ROTATION_TIME))
              && (if arrival == now then bufferInit == old(bufferInit) else NextBoundary(arrival, bufferInit))
    {
      ticks := Latency(now, lastSector, bufferInit, sector, writing);
      LatencyIsBounded(now, lastSector, bufferInit, sector, writing);
      LatencyMeans(now, lastSector, bufferInit, sector, writing);
      active := true;
      var seek := Seek(lastSector, sector);
      if seek != 0 {
        bufferInit := now + seek + Rotation(now, seek);
      }
      lastSector := sector;
    }

    method HandleInterrupt()
      requires Valid()
      modifies this`active
      ensures Valid() && !active
    {
      active := false;
    }
  }
}

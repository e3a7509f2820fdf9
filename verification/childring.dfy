/** The ring of a thread's children (threads/thread.cc, userprog/exception.cc):
    a circular doubly linked list of ChildThread records. */
module ChildRings {
  import opened Sequences

  class ChildThread {
    const id: nat
    var next: ChildThread
    var prev: ChildThread

    constructor (id: nat)
      ensures this.id == id && next == this && prev == this
    {
      this.id := id;
      next, prev := this, this;
    }
  }

  /** The counter behind `globalID`. */
  class Ids {
    var next: nat
  }

  predicate IdsIncrease(s: seq<ChildThread>, bound: nat) {
    && (forall i, j | 0 <= i < j < |s| :: s[i].id < s[j].id)
    && (forall i | 0 <= i < |s| :: s[i].id < bound)
  }

  function After(n: nat, i: nat): nat
    requires i < n
  {
    if i + 1 == n then 0 else i + 1
  }

  lemma IdsIncreaseGrows(s: seq<ChildThread>, record: ChildThread)
    requires IdsIncrease(s, record.id)
    ensures IdsIncrease(s + [record], record.id + 1)
  {
  }

  class Thread {
    var child: ChildThread?
    var parentRecord: ChildThread?
    ghost var ring: seq<ChildThread>

    /** From `child` the next pointers lead around the ring in order of creation
        and back, and the prev pointers lead the other way. */
    ghost predicate Valid()
      reads this, ring
    {
      && child == (if ring == [] then null else ring[0])
      && (forall i | 0 <= i < |ring| :: ring[i].next == ring[After(|ring|, i)])
      && (forall i | 0 <= i < |ring| :: ring[After(|ring|, i)].prev == ring[i])
      && Distinct(ring)
    }

    /** Links a new record in behind the last child. */
    method Link(record: ChildThread)
      requires Valid() && record !in ring && record.next == record && record.prev == record
      modifies this`child, this`ring, ring`next, ring`prev, record
      ensures Valid() && ring == old(ring) + [record]
    {
      var n := |ring|;
      ghost var before := ring;
      ring := before + [record];
      if child == null {
        child := record;
        assert After(1, 0) == 0;
      } else {
        var firstChild := child;
        assert ring[..n] == before && After(n, n - 1) == 0;
        assert firstChild.prev == before[n - 1];
        record.prev := firstChild.prev;
        record.next := firstChild;
        firstChild.prev.next := record;
        firstChild.prev := record;
        forall i | 0 <= i < n + 1
          ensures ring[i].next == ring[After(n + 1, i)] && ring[After(n + 1, i)].prev == ring[i]
        {
          if i < n - 1 { assert After(n, i) == i + 1; }
        }
      }
    }

    /** A thread created by `parent`, or without a parent. */
    constructor (parent: Thread?, ids: Ids)
      requires parent != null ==> parent.Valid() && IdsIncrease(parent.ring, ids.next)
      modifies ids, parent, (if parent == null then [] else parent.ring)`next,
               (if parent == null then [] else parent.ring)`prev
      ensures child == null && ring == [] && Valid()
      ensures parent == null ==> parentRecord == null && ids.next == old(ids.next)
      ensures parent != null ==>
                && parentRecord != null && fresh(parentRecord) && parentRecord.id == old(ids.next)
                && ids.next == old(ids.next) + 1
                && parent.ring == old(parent.ring) + [parentRecord]
                && parent.Valid() && IdsIncrease(parent.ring, ids.next)
                && parent.parentRecord == old(parent.parentRecord)
    {
      hide IdsIncrease;
      parentRecord, child, ring := null, null, [];
      new;
      if parent == null {
        return;
      }
      var record := new ChildThread(ids.next);
      parentRecord := record;
      ids.next := ids.next + 1;
      IdsIncreaseGrows(parent.ring, record);
      parent.Link(record);
    }

    /** The walk of Join: the record is found exactly when the id is a child's. */
    method Find(cid: int) returns (record: ChildThread?)
      requires Valid()
      ensures record != null ==> record in ring && record.id == cid
      ensures record == null <==> cid < 0 || forall i | 0 <= i < |ring| :: ring[i].id != cid
    {
      record := null;
      if cid >= 0 && child != null {
        var childRecord := child;
        ghost var k := 0;
        while true
          invariant k < |ring| && childRecord == ring[k]
          invariant forall i | 0 <= i < k :: ring[i].id != cid
          decreases |ring| - k
        {
          if childRecord.id == cid {
            return childRecord;
          }
          childRecord := childRecord.next;
          if childRecord == child {
            break;
          }
          k := k + 1;
        }
      }
    }
  }
}

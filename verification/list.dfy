/** The singly-linked list of threads/list.cc, as a sequence of keyed items. */
module Lists {

  import opened Options
  import opened Sequences

  datatype Entry<T> = Entry(item: T, key: nat)

  predicate Sorted<T>(s: seq<Entry<T>>) {
    forall i, j | 0 <= i < j < |s| :: s[i].key <= s[j].key
  }

  /** Where SortedInsert puts a key: before the first larger one at or after
      `from`. */
  function Slot<T>(s: seq<Entry<T>>, key: nat, from: nat): (i: nat)
    requires from <= |s|
    ensures from <= i <= |s|
    ensures forall k | from <= k < i :: s[k].key <= key
    ensures i < |s| ==> key < s[i].key
    decreases |s| - from
  {
    if from == |s| || key < s[from].key then from else Slot(s, key, from + 1)
  }

  /** `s` with `x` put in front of position `i`. */
  function PutAt<X>(s: seq<X>, i: nat, x: X): (r: seq<X>)
    requires i <= |s|
    ensures |r| == |s| + 1
  {
    s[..i] + [x] + s[i..]
  }

  lemma PutAtIndex<X>(s: seq<X>, i: nat, x: X, j: nat)
    requires i <= |s| && j <= |s|
    ensures PutAt(s, i, x)[j] == if j < i then s[j] else if j == i then x else s[j - 1]
  {
  }

  lemma PutAtMultiset<X>(s: seq<X>, i: nat, x: X)
    requires i <= |s|
    ensures multiset(PutAt(s, i, x)) == multiset(s) + multiset{x}
  {
    assert s == s[..i] + s[i..];
  }

  lemma PutAtDistinct<X>(s: seq<X>, i: nat, x: X)
    requires i <= |s| && Distinct(s) && x !in s
    ensures Distinct(PutAt(s, i, x))
  {
    hide PutAt;
    forall j, k | 0 <= j < k < |s| + 1
      ensures PutAt(s, i, x)[j] != PutAt(s, i, x)[k]
    {
      PutAtIndex(s, i, x, j);
      PutAtIndex(s, i, x, k);
    }
  }

  function Inserted<T>(s: seq<Entry<T>>, e: Entry<T>): seq<Entry<T>> {
    PutAt(s, Slot(s, e.key, 0), e)
  }

  /** Inserting into a sorted list keeps it sorted, adds exactly the new entry,
      and puts it after every entry with an equal key. */
  lemma InsertedSorted<T>(s: seq<Entry<T>>, e: Entry<T>)
    requires Sorted(s)
    ensures Sorted(Inserted(s, e))
    ensures multiset(Inserted(s, e)) == multiset(s) + multiset{e}
    ensures var i := Slot(s, e.key, 0);
            Inserted(s, e)[i] == e
            && (forall k | 0 <= k < i :: s[k].key <= e.key) && (forall k | i <= k < |s| :: e.key < s[k].key)
  {
    hide PutAt;
    var i := Slot(s, e.key, 0);
    PutAtMultiset(s, i, e);
    PutAtIndex(s, i, e, i);
    forall j, k | 0 <= j < k < |s| + 1
      ensures Inserted(s, e)[j].key <= Inserted(s, e)[k].key
    {
      PutAtIndex(s, i, e, j);
      PutAtIndex(s, i, e, k);
    }
  }

  // ---------- Runs of a sorted list ----------

  datatype Op = Insert(key: nat) | RemoveFirst

  /** The list after `ops`, each item being the number of its insertion. */
  function After(ops: seq<Op>): seq<Entry<nat>> {
    if ops == [] then []
    else
      var s := After(ops[..|ops| - 1]);
      match ops[|ops| - 1]
      case Insert(key) => Inserted(s, Entry(|ops| - 1, key))
      case RemoveFirst => if s == [] then [] else s[1..]
  }

  /** Ordered by key, and by age among equal keys. */
  predicate Stable(s: seq<Entry<nat>>) {
    forall i, j | 0 <= i < j < |s| ::
      s[i].key < s[j].key || (s[i].key == s[j].key && s[i].item < s[j].item)
  }

  /** Whatever the operations, the list is sorted by key and by age among equal
      keys: so what is removed is the oldest item of least key. */
  lemma {:induction false} StablePriorityQueue(ops: seq<Op>)
    ensures Stable(After(ops))
    ensures forall i | 0 <= i < |After(ops)| :: After(ops)[i].item < |ops|
    decreases |ops|
  {
    if ops != [] {
      var n := |ops| - 1;
      StablePriorityQueue(ops[..n]);
      var s := After(ops[..n]);
      match ops[n] {
        case Insert(key) => InsertYoungest(s, n, key);
        case RemoveFirst =>
      }
    }
  }

  lemma InsertYoungest(s: seq<Entry<nat>>, n: nat, key: nat)
    requires Stable(s) && forall i | 0 <= i < |s| :: s[i].item < n
    ensures Stable(Inserted(s, Entry(n, key)))
    ensures forall i | 0 <= i <= |s| :: Inserted(s, Entry(n, key))[i].item <= n
  {
  }

  // ---------- The linked list ----------

  class ListElement<T> {
    const item: T
    const key: nat
    var next: ListElement?<T>

    constructor (item: T, key: nat)
      ensures this.item == item && this.key == key && next == null
    {
      this.item, this.key, next := item, key, null;
    }
  }

  function Entries<T>(s: seq<ListElement<T>>): (r: seq<Entry<T>>)
    ensures |r| == |s|
  {
    seq(|s|, i requires 0 <= i < |s| => Entry(s[i].item, s[i].key))
  }

  lemma EntriesPut<T>(s: seq<ListElement<T>>, i: nat, x: ListElement<T>)
    requires i <= |s|
    ensures Entries(PutAt(s, i, x)) == PutAt(Entries(s), i, Entry(x.item, x.key))
  {
    hide PutAt;
    forall j | 0 <= j <= |s|
      ensures Entries(PutAt(s, i, x))[j] == PutAt(Entries(s), i, Entry(x.item, x.key))[j]
    {
      PutAtIndex(s, i, x, j);
      PutAtIndex(Entries(s), i, Entry(x.item, x.key), j);
    }
  }

  class List<T> {
    var first: ListElement?<T>
    var last: ListElement?<T>
    ghost var spine: seq<ListElement<T>>

    static ghost function Successor(s: seq<ListElement<T>>, i: nat): ListElement?<T>
      requires i < |s|
    {
      if i + 1 < |s| then s[i + 1] else null
    }

    /** `first` heads a chain of distinct elements that ends at `last`. */
    ghost predicate Valid()
      reads this, spine
    {
      && first == (if spine == [] then null else spine[0])
      && last == (if spine == [] then null else spine[|spine| - 1])
      && (forall i | 0 <= i < |spine| :: spine[i].next == Successor(spine, i))
      && Distinct(spine)
    }

    ghost function Contents(): (s: seq<Entry<T>>)
      reads this
    {
      Entries(spine)
    }

    constructor ()
      ensures Valid() && Contents() == [] && spine == []
    {
      first, last, spine := null, null, [];
    }

    method IsEmpty() returns (empty: bool)
      requires Valid()
      ensures empty <==> Contents() == []
    {
      empty := first == null;
    }

    method Append(item: T)
      requires Valid()
      modifies this, spine
      ensures Valid() && forall n | n in spine :: n in old(spine) || fresh(n)
      ensures Contents() == old(Contents()) + [Entry(item, 0)]
    {
      var element := new ListElement(item, 0);
      if first == null {
        first := element;
        last := element;
      } else {
        last.next := element;
        last := element;
      }
      spine := spine + [element];
    }

    method Prepend(item: T)
      requires Valid()
      modifies this, spine
      ensures Valid() && forall n | n in spine :: n in old(spine) || fresh(n)
      ensures Contents() == [Entry(item, 0)] + old(Contents())
    {
      ghost var was := spine;
      var element := new ListElement(item, 0);
      if first == null {
        first := element;
        last := element;
      } else {
        element.next := first;
        first := element;
      }
      spine := PutAt(spine, 0, element);
      PutAtDistinct(was, 0, element);
      forall i | 1 <= i < |spine|
        ensures spine[i].next == Successor(spine, i)
      {
        assert spine[i] == was[i - 1] && old(was[i - 1].next) == Successor(was, i - 1);
      }
    }

    method SortedInsert(item: T, sortKey: nat)
      requires Valid()
      modifies this, spine
      ensures Valid() && forall n | n in spine :: n in old(spine) || fresh(n)
      ensures Contents() == Inserted(old(Contents()), Entry(item, sortKey))
    {
      ghost var was := spine;
      var element := new ListElement(item, sortKey);
      if first == null {
        first := element;
        last := element;
        spine := [element];
        assert Entries(spine) == [Entry(item, sortKey)];
      } else if sortKey < first.key {
        element.next := first;
        first := element;
        spine := PutAt(spine, 0, element);
        PutAtDistinct(was, 0, element);
        EntriesPut(was, 0, element);
        assert Slot(Entries(was), sortKey, 0) == 0;
        forall i | 1 <= i < |spine|
          ensures spine[i].next == Successor(spine, i)
        {
          assert spine[i] == was[i - 1] && old(was[i - 1].next) == Successor(was, i - 1);
        }
      } else {
        InsertBehind(element);
      }
    }

    /** The walk of SortedInsert: `element` goes behind the first one, at the
        latest at the end. */
    method InsertBehind(element: ListElement<T>)
      requires Valid() && first != null && first.key <= element.key
      requires element !in spine && element.next == null
      modifies this, spine, element
      ensures Valid() && forall n | n in spine :: n in old(spine) || n == element
      ensures Contents() == Inserted(old(Contents()), Entry(element.item, element.key))
    {
      ghost var s := Contents();
      var ptr := first;
      ghost var i := 0;
      while ptr.next != null
        invariant 0 <= i < |spine| && ptr == spine[i]
        invariant Slot(s, element.key, 0) == Slot(s, element.key, i + 1)
        invariant Valid() && element !in spine && element.next == null && spine == old(spine)
        decreases |spine| - i
      {
        if element.key < ptr.next.key {
          EntriesPut(spine, i + 1, element);
          LinkAfter(ptr, i, element);
          return;
        }
        ptr := ptr.next;
        i := i + 1;
      }
      EntriesPut(spine, |spine|, element);
      assert PutAt(spine, |spine|, element) == spine + [element];
      last.next := element;
      last := element;
      spine := spine + [element];
    }

    /** element->next = ptr->next; ptr->next = element. */
    method LinkAfter(ptr: ListElement<T>, ghost i: nat, element: ListElement<T>)
      requires Valid() && i + 1 < |spine| && ptr == spine[i] && element !in spine
      modifies ptr, element, this`spine
      ensures Valid() && spine == PutAt(old(spine), i + 1, element)
    {
      ghost var was := spine;
      element.next := ptr.next;
      ptr.next := element;
      ChainPut(was, i, element, PutAt(was, i + 1, element));
      PutAtDistinct(was, i + 1, element);
      PutAtIndex(was, i + 1, element, 0);
      PutAtIndex(was, i + 1, element, |was|);
      hide PutAt;
      spine := PutAt(spine, i + 1, element);
    }

    /** Re-linking one place of a chain gives the chain with the element in. */
    static lemma ChainPut(s: seq<ListElement<T>>, i: nat, x: ListElement<T>, r: seq<ListElement<T>>)
      requires i + 1 < |s| && r == PutAt(s, i + 1, x)
      requires forall j | 0 <= j < |s| && j != i :: s[j].next == Successor(s, j)
      requires s[i].next == x && x.next == s[i + 1]
      ensures forall j | 0 <= j < |r| :: r[j].next == Successor(r, j)
    {
      forall j | 0 <= j < |r|
        ensures r[j].next == Successor(r, j)
      {
        hide PutAt;
        PutAtIndex(s, i + 1, x, j);
        if j < |s| { PutAtIndex(s, i + 1, x, j + 1); }
      }
    }

    method SortedRemove() returns (r: Option<Entry<T>>)
      requires Valid()
      modifies this
      ensures Valid() && (forall n | n in spine :: n in old(spine))
      ensures r == if old(Contents()) == [] then None else Some(old(Contents())[0])
      ensures Contents() == if old(Contents()) == [] then [] else old(Contents())[1..]
    {
      ghost var was := spine;
      if first == null {
        return None;
      }
      var element := first;
      r := Some(Entry(element.item, element.key));
      if first == last {
        first := null;
        last := null;
      } else {
        first := element.next;
      }
      spine := spine[1..];
      forall i | 0 <= i < |spine|
        ensures spine[i].next == Successor(spine, i)
      {
        assert spine[i] == was[i + 1] && old(was[i + 1].next) == Successor(was, i + 1);
      }
    }
  }
}

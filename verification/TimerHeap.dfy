/** The deadline heap of a worker's timer queue: its order and the contract of the
    standard heap algorithms that maintain it. */
module TimerHeap {

  /** One pending deadline; slot and generation name the registration it belongs to. */
  datatype Entry = Entry(deadline: int, sequence: nat, slot: nat, generation: nat)

  /** Heap order: earliest deadline first, ties broken by registration order. */
  predicate Later(left: Entry, right: Entry) {
    left.deadline > right.deadline
    || (left.deadline == right.deadline && left.sequence > right.sequence)
  }

  predicate IsParent(p: nat, k: nat) {
    k == 2 * p + 1 || k == 2 * p + 2
  }

  predicate IsHeap(h: seq<Entry>) {
    forall p, k :: 0 <= p < k < |h| && IsParent(p, k) ==> !Later(h[p], h[k])
  }

  lemma {:induction false} FrontIsEarliest(h: seq<Entry>, k: nat)
    requires IsHeap(h) && k < |h|
    ensures !Later(h[0], h[k])
  {
    if k > 0 {
      var p := (k - 1) / 2;
      FrontIsEarliest(h, p);
      assert IsParent(p, k);
    }
  }

  /** The front of a heap precedes every entry of the set it holds. */
  lemma FrontPrecedesAll(h: seq<Entry>, entries: set<Entry>)
    requires IsHeap(h) && h != [] && multiset(h) == multiset(entries)
    ensures h[0] in entries
    ensures forall e :: e in entries ==> !Later(h[0], e)
  {
    assert h[0] in multiset(h);
    forall e | e in entries ensures !Later(h[0], e) {
      assert e in multiset(h);
      var k :| 0 <= k < |h| && h[k] == e;
      FrontIsEarliest(h, k);
    }
  }

  /** A set entry sits in the heap's storage. */
  lemma SetAndSequenceAgree(h: seq<Entry>, entries: set<Entry>)
    requires multiset(h) == multiset(entries)
    ensures |h| == |entries|
    ensures forall e :: e in entries <==> e in h
  {
    assert |multiset(h)| == |h|;
    forall e ensures e in entries <==> e in h {
      assert e in h <==> e in multiset(h);
      assert e in entries <==> e in multiset(entries);
    }
  }

  ghost predicate Sorted(h: seq<Entry>) {
    forall i, j :: 0 <= i < j < |h| ==> !Later(h[i], h[j])
  }

  function Insert(e: Entry, h: seq<Entry>): (r: seq<Entry>)
    requires Sorted(h)
    ensures |r| == |h| + 1 && multiset(r) == multiset(h) + multiset{e}
    ensures Sorted(r)
  {
    if h == [] || Later(h[0], e) then
      [e] + h
    else
      var rest := Insert(e, h[1..]);
      InsertKeepsOrder(e, h, rest);
      [h[0]] + rest
  }

  lemma InsertKeepsOrder(e: Entry, h: seq<Entry>, rest: seq<Entry>)
    requires h != [] && Sorted(h) && !Later(h[0], e)
    requires Sorted(rest) && multiset(rest) == multiset(h[1..]) + multiset{e}
    ensures Sorted([h[0]] + rest)
    ensures multiset([h[0]] + rest) == multiset(h) + multiset{e}
  {
    forall k | 0 <= k < |rest| ensures !Later(h[0], rest[k]) {
      assert rest[k] in multiset(rest);
      if rest[k] != e {
        assert rest[k] in multiset(h[1..]);
        var j :| 0 <= j < |h[1..]| && h[1..][j] == rest[k];
        assert h[j + 1] == rest[k];
      }
    }
    assert h == [h[0]] + h[1..];
  }

  /** Stands for push_heap, pop_heap and make_heap: some rearrangement that is a heap.
      Callers may rely on nothing but the contract, which is all the standard promises. */
  method ArrangeHeap(h: seq<Entry>) returns (r: seq<Entry>)
    ensures IsHeap(r) && multiset(r) == multiset(h)
  {
    r := [];
    for k := 0 to |h|
      invariant Sorted(r) && multiset(r) == multiset(h[..k])
    {
      assert h[..k + 1] == h[..k] + [h[k]];
      r := Insert(h[k], r);
    }
    assert h[..|h|] == h;
  }
}

/** Doubly linked lists whose links live in the elements. The elements are numbered by their
    place in `all`; a list is spelled by the `previous` and `next` links of its members, and
    `nil` is the null pointer. */
module IntrusiveLists {
  import opened Sequences

  ghost function Member<T>(all: seq<T>, nil: T, list: seq<nat>, k: int): T {
    if 0 <= k < |list| && list[k] < |all| then all[list[k]] else nil
  }

  /** The number of the k-th member, -1 past either end. */
  ghost function Number(list: seq<nat>, k: int): int {
    if 0 <= k < |list| then list[k] else -1
  }

  /** The links spell the list, forwards and backwards. */
  ghost predicate Spells<T>(all: seq<T>, nil: T, list: seq<nat>, head: T, tail: T, previous: seq<T>, next: seq<T>) {
    && |previous| == |next| == |all|
    && head == Member(all, nil, list, 0) && tail == Member(all, nil, list, |list| - 1)
    && forall k :: 0 <= k < |list| ==>
         && list[k] < |all|
         && previous[list[k]] == Member(all, nil, list, k - 1) && next[list[k]] == Member(all, nil, list, k + 1)
  }

  ghost function PutAt<T>(links: seq<T>, i: int, link: T): (r: seq<T>)
    ensures |r| == |links|
  {
    if 0 <= i < |links| then links[i := link] else links
  }

  /** Appending an element that is in no list. */
  lemma AfterAppend<T>(all: seq<T>, nil: T, list: seq<nat>, i: nat, head: T, tail: T, previous: seq<T>, next: seq<T>)
    requires Spells(all, nil, list, head, tail, previous, next) && Distinct(list) && i < |all| && i !in list
    ensures Spells(all, nil, list + [i], if list == [] then all[i] else head, all[i],
                   PutAt(previous, i, tail), PutAt(PutAt(next, i, nil), Number(list, |list| - 1), all[i]))
  {
    var after, last := list + [i], Number(list, |list| - 1);
    forall k | 0 <= k < |after|
      ensures PutAt(previous, i, tail)[after[k]] == Member(all, nil, after, k - 1)
      ensures PutAt(PutAt(next, i, nil), last, all[i])[after[k]] == Member(all, nil, after, k + 1)
    {
      AppendedLinks(all, nil, list, i, head, tail, previous, next, k);
    }
  }

  lemma AppendedLinks<T>(all: seq<T>, nil: T, list: seq<nat>, i: nat, head: T, tail: T,
                             previous: seq<T>, next: seq<T>, k: nat)
    requires Spells(all, nil, list, head, tail, previous, next) && Distinct(list) && i < |all| && i !in list
    requires k <= |list|
    ensures var after := list + [i];
            && PutAt(previous, i, tail)[after[k]] == Member(all, nil, after, k - 1)
            && PutAt(PutAt(next, i, nil), Number(list, |list| - 1), all[i])[after[k]] == Member(all, nil, after, k + 1)
  {
    if k < |list| {
      assert list[k] in list;
      assert next[list[k]] == Member(all, nil, list, k + 1);
    }
  }

  /** Putting an element that is in no list in front. */
  lemma AfterPush<T>(all: seq<T>, nil: T, list: seq<nat>, i: nat, head: T, tail: T, previous: seq<T>, next: seq<T>)
    requires Spells(all, nil, list, head, tail, previous, next) && Distinct(list) && i < |all| && i !in list
    requires previous[i] == nil
    ensures Spells(all, nil, [i] + list, all[i], if list == [] then all[i] else tail,
                   PutAt(previous, Number(list, 0), all[i]), PutAt(next, i, head))
  {
    var after := [i] + list;
    forall k | 0 <= k < |after|
      ensures PutAt(previous, Number(list, 0), all[i])[after[k]] == Member(all, nil, after, k - 1)
      ensures PutAt(next, i, head)[after[k]] == Member(all, nil, after, k + 1)
    {
      PushedLinks(all, nil, list, i, head, tail, previous, next, k);
    }
  }

  lemma PushedLinks<T>(all: seq<T>, nil: T, list: seq<nat>, i: nat, head: T, tail: T,
                           previous: seq<T>, next: seq<T>, k: nat)
    requires Spells(all, nil, list, head, tail, previous, next) && Distinct(list) && i < |all| && i !in list
    requires previous[i] == nil && k <= |list|
    ensures var after := [i] + list;
            && PutAt(previous, Number(list, 0), all[i])[after[k]] == Member(all, nil, after, k - 1)
            && PutAt(next, i, head)[after[k]] == Member(all, nil, after, k + 1)
  {
    MembersPushed(all, nil, list, i, k - 1);
    MembersPushed(all, nil, list, i, k + 1);
    if k > 0 {
      assert ([i] + list)[k] == list[k - 1] && list[k - 1] in list;
      assert next[list[k - 1]] == Member(all, nil, list, k);
      if k > 1 {
        assert list[k - 1] != list[0];
      }
    }
  }

  lemma MembersPushed<T>(all: seq<T>, nil: T, list: seq<nat>, i: nat, k: int)
    requires i < |all|
    ensures Member(all, nil, [i] + list, k) == if k == 0 then all[i] else Member(all, nil, list, k - 1)
  {
  }

  /** Taking the m-th member out: its neighbours are linked to each other. Its own links may be anything. */
  lemma AfterRemove<T>(all: seq<T>, nil: T, list: seq<nat>, m: nat, head: T, tail: T,
                           previous: seq<T>, next: seq<T>, p: T, n: T)
    requires Spells(all, nil, list, head, tail, previous, next) && Distinct(list) && m < |list|
    ensures var left, right := Member(all, nil, list, m - 1), Member(all, nil, list, m + 1);
            Spells(all, nil, list[..m] + list[m + 1..],
                   if m == 0 then right else head, if m == |list| - 1 then left else tail,
                   PutAt(PutAt(previous, Number(list, m + 1), left), list[m], p),
                   PutAt(PutAt(next, Number(list, m - 1), right), list[m], n))
  {
    hide Distinct, Member, PutAt, Number;
    var after, left, right := list[..m] + list[m + 1..], Member(all, nil, list, m - 1), Member(all, nil, list, m + 1);
    MembersAround(all, nil, list, m, 0);
    MembersAround(all, nil, list, m, |after| - 1);
    forall k | 0 <= k < |after|
      ensures after[k] < |all|
      ensures PutAt(PutAt(previous, Number(list, m + 1), left), list[m], p)[after[k]] == Member(all, nil, after, k - 1)
      ensures PutAt(PutAt(next, Number(list, m - 1), right), list[m], n)[after[k]] == Member(all, nil, after, k + 1)
    {
      var j := if k < m then k else k + 1;
      MembersAround(all, nil, list, m, k - 1);
      MembersAround(all, nil, list, m, k + 1);
      PutAround(list, j, m, previous, m + 1, left, p);
      PutAround(list, j, m, next, m - 1, right, n);
    }
  }

  lemma MembersAround<T>(all: seq<T>, nil: T, list: seq<nat>, m: nat, k: int)
    requires m < |list|
    ensures Member(all, nil, list[..m] + list[m + 1..], k) == Member(all, nil, list, if k < m then k else k + 1)
  {
  }

  /** What the link of the j-th member becomes when those of the m-th and of a neighbour are set. */
  lemma PutAround<T>(list: seq<nat>, j: nat, m: nat, links: seq<T>, near: int, link: T, own: T)
    requires Distinct(list) && j < |list| && m < |list| && j != m && near != m
    requires list[j] < |links|
    ensures PutAt(PutAt(links, Number(list, near), link), list[m], own)[list[j]] == if j == near then link
            else links[list[j]]
  {
    assert list[j] != list[m];
    if 0 <= near < |list| && j != near {
      assert list[j] != list[near];
    }
  }

  lemma PutOwn<T>(links: seq<T>, i: nat)
    requires i < |links|
    ensures PutAt(links, i, links[i]) == links
  {
  }

  /** The same when the member keeps its own links. */
  lemma AfterCut<T>(all: seq<T>, nil: T, list: seq<nat>, m: nat, head: T, tail: T, previous: seq<T>, next: seq<T>)
    requires Spells(all, nil, list, head, tail, previous, next) && Distinct(list) && m < |list|
    ensures var left, right := Member(all, nil, list, m - 1), Member(all, nil, list, m + 1);
            Spells(all, nil, list[..m] + list[m + 1..],
                   if m == 0 then right else head, if m == |list| - 1 then left else tail,
                   PutAt(previous, Number(list, m + 1), left), PutAt(next, Number(list, m - 1), right))
  {
    hide Spells, Member, Distinct;
    var left, right := Member(all, nil, list, m - 1), Member(all, nil, list, m + 1);
    var previous', next' := PutAt(previous, Number(list, m + 1), left), PutAt(next, Number(list, m - 1), right);
    MemberIsThere(all, nil, list, m, head, tail, previous, next);
    AfterRemove(all, nil, list, m, head, tail, previous, next, previous'[list[m]], next'[list[m]]);
    PutOwn(previous', list[m]);
    PutOwn(next', list[m]);
  }

  lemma MemberIsThere<T>(all: seq<T>, nil: T, list: seq<nat>, m: nat, head: T, tail: T,
                         previous: seq<T>, next: seq<T>)
    requires Spells(all, nil, list, head, tail, previous, next) && m < |list|
    ensures list[m] < |all| == |previous| == |next|
  {
  }

  /** Taking the head out, whose own forward link is cleared. */
  lemma AfterPop<T>(all: seq<T>, nil: T, list: seq<nat>, head: T, tail: T, previous: seq<T>, next: seq<T>)
    requires Spells(all, nil, list, head, tail, previous, next) && Distinct(list) && list != []
    ensures Spells(all, nil, list[1..], Member(all, nil, list, 1), if |list| == 1 then nil else tail,
                   PutAt(previous, Number(list, 1), nil), PutAt(next, list[0], nil))
  {
    hide Spells, Distinct;
    var previous' := PutAt(previous, Number(list, 1), nil);
    MemberIsThere(all, nil, list, 0, head, tail, previous, next);
    AfterRemove(all, nil, list, 0, head, tail, previous, next, previous'[list[0]], nil);
    PutOwn(previous', list[0]);
    assert list[..0] + list[1..] == list[1..];
  }

  /** A new element joins no list. */
  lemma AfterGrowth<T>(all: seq<T>, nil: T, x: T, list: seq<nat>, head: T, tail: T, previous: seq<T>, next: seq<T>)
    requires Spells(all, nil, list, head, tail, previous, next)
    ensures Spells(all + [x], nil, list, head, tail, previous + [nil], next + [nil])
  {
  }

  /** The ends and the neighbours of a list of objects. */
  lemma Ends<T>(all: seq<T>, nil: T, list: seq<nat>, head: T, tail: T, previous: seq<T>, next: seq<T>)
    requires Spells(all, nil, list, head, tail, previous, next) && nil !in all
    ensures (list == []) == (head == nil) && (list == []) == (tail == nil)
    ensures list != [] ==> list[0] < |all| && head == all[list[0]]
    ensures list != [] ==> list[|list| - 1] < |all| && tail == all[list[|list| - 1]]
  {
  }

  lemma Neighbours<T>(all: seq<T>, nil: T, list: seq<nat>, m: nat, head: T, tail: T, previous: seq<T>, next: seq<T>)
    requires Spells(all, nil, list, head, tail, previous, next) && nil !in all && Distinct(list) && m < |list|
    ensures list[m] < |all|
    ensures var left := previous[list[m]];
            && left == Member(all, nil, list, m - 1) && (left == nil) == (m == 0)
            && (m > 0 ==> list[m - 1] < |all| && left == all[list[m - 1]] && list[m - 1] != list[m])
    ensures var right := next[list[m]];
            && right == Member(all, nil, list, m + 1) && (right == nil) == (m == |list| - 1)
            && (m < |list| - 1 ==> list[m + 1] < |all| && right == all[list[m + 1]] && list[m + 1] != list[m])
    ensures 0 < m < |list| - 1 ==> list[m - 1] != list[m + 1]
  {
  }
}

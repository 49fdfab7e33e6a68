/** Accounting by multisets: that a family of places holds each of 0..n exactly once. */
module Tally {
  ghost function AllBelow(n: nat): (r: multiset<nat>)
    ensures |r| == n
    ensures forall k: nat :: r[k] == if k < n then 1 else 0
  {
    if n == 0 then multiset{} else AllBelow(n - 1) + multiset{n - 1}
  }

  /** The elements of all the given sequences. */
  ghost function Union(chains: seq<seq<nat>>): multiset<nat> {
    if chains == [] then multiset{} else multiset(chains[0]) + Union(chains[1..])
  }

  lemma {:induction false} UnionGrows(chains: seq<seq<nat>>, c: seq<nat>)
    ensures Union(chains + [c]) == Union(chains) + multiset(c)
  {
    if chains == [] {
      assert chains + [c] == [c];
    } else {
      assert (chains + [c])[1..] == chains[1..] + [c];
      UnionGrows(chains[1..], c);
    }
  }

  lemma {:induction false} UnionReplaces(chains: seq<seq<nat>>, k: nat, c: seq<nat>)
    requires k < |chains|
    ensures Union(chains[k := c]) + multiset(chains[k]) == Union(chains) + multiset(c)
  {
    if k == 0 {
      assert chains[k := c][1..] == chains[1..];
    } else {
      var tail := chains[1..];
      UnionReplaces(tail, k - 1, c);
      assert chains[k := c][1..] == tail[k - 1 := c] && chains[k := c][0] == chains[0] && tail[k - 1] == chains[k];
      Regroup(multiset(chains[0]), Union(tail[k - 1 := c]), multiset(chains[k]), Union(tail), multiset(c));
    }
  }

  lemma Regroup(first: multiset<nat>, a: multiset<nat>, b: multiset<nat>, c: multiset<nat>, d: multiset<nat>)
    requires a + b == c + d
    ensures (first + a) + b == (first + c) + d
  {
    assert (first + a) + b == first + (a + b);
    assert (first + c) + d == first + (c + d);
  }

  /** Taking the first element out of one sequence. */
  lemma UnionPops(chains: seq<seq<nat>>, k: nat)
    requires k < |chains| && chains[k] != []
    ensures Union(chains) == Union(chains[k := chains[k][1..]]) + multiset{chains[k][0]}
  {
    var c := chains[k];
    UnionReplaces(chains, k, c[1..]);
    SplitFirst(c);
    Cancel(Union(chains[k := c[1..]]), multiset{c[0]}, multiset(c[1..]), Union(chains));
  }

  lemma Cancel(a: multiset<nat>, x: multiset<nat>, m: multiset<nat>, b: multiset<nat>)
    requires a + (x + m) == b + m
    ensures b == a + x
  {
    forall e ensures b[e] == (a + x)[e] {
      assert (a + (x + m))[e] == (b + m)[e];
    }
  }

  lemma {:induction false} MemberOfUnion(chains: seq<seq<nat>>, k: nat, x: nat)
    requires k < |chains| && x in chains[k]
    ensures x in Union(chains)
  {
    if k > 0 {
      MemberOfUnion(chains[1..], k - 1, x);
    }
  }

  lemma SplitFirst(s: seq<nat>)
    requires s != []
    ensures multiset(s) == multiset{s[0]} + multiset(s[1..])
  {
    assert s == [s[0]] + s[1..];
  }

  lemma SplitAt(s: seq<nat>, k: nat)
    requires k <= |s|
    ensures multiset(s) == multiset(s[..k]) + multiset(s[k..])
  {
    assert s == s[..k] + s[k..];
  }
}

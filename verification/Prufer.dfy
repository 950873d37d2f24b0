/** Pruefer codes: the labelled tree a sequence stands for, and that no two sequences stand for the same one. */
module Prufer {
  import opened Logs

  function {:tailrecursion false} Count(s: seq<nat>, x: nat): nat {
    if s == [] then 0 else (if s[0] == x then 1 else 0) + Count(s[1..], x)
  }

  lemma {:induction false} CountIn(s: seq<nat>, x: nat)
    ensures Count(s, x) > 0 <==> x in s
  {
    if s != [] {
      CountIn(s[1..], x);
      assert s == [s[0]] + s[1..];
    }
  }

  /** A sequence naming every member of a set is no shorter than the set. */
  lemma {:induction false} DistinctAtMost(s: seq<nat>, vals: set<nat>)
    requires forall x :: x in vals ==> x in s
    ensures |vals| <= |s|
    decreases |s|
  {
    if s != [] {
      assert s == [s[0]] + s[1..];
      DistinctAtMost(s[1..], vals - {s[0]});
    } else {
      assert vals == {};
    }
  }

  /** A code over the labels alive: each entry names one, and there are two more labels than entries. */
  ghost predicate Code(alive: set<nat>, rest: seq<nat>) {
    |alive| == |rest| + 2 && forall i :: i in rest ==> i in alive
  }

  /** The labels no entry names. */
  function Leaves(alive: set<nat>, rest: seq<nat>): (r: set<nat>)
    ensures forall i :: i in r <==> i in alive && i !in rest
  {
    set i | i in alive && i !in rest
  }

  /** There is always a leaf: the entries name fewer labels than there are. */
  lemma LeafExists(alive: set<nat>, rest: seq<nat>)
    requires Code(alive, rest)
    ensures Leaves(alive, rest) != {}
  {
    if Leaves(alive, rest) == {} {
      assert forall i :: i in alive ==> i in rest;
      DistinctAtMost(rest, alive);
    }
  }

  ghost function MinLeaf(alive: set<nat>, rest: seq<nat>): (leaf: nat)
    requires Code(alive, rest)
    ensures leaf in alive && leaf !in rest
  {
    LeafExists(alive, rest);
    MinOf(Leaves(alive, rest))
  }

  lemma NextCode(alive: set<nat>, rest: seq<nat>)
    requires Code(alive, rest) && rest != []
    ensures Code(alive - {MinLeaf(alive, rest)}, rest[1..])
    ensures rest[0] in alive - {MinLeaf(alive, rest)}
  {
    assert rest[0] in rest;
  }

  /** The tree's edges: the smallest leaf is joined to the first entry's label and retired; the last two labels
      are joined to each other. */
  ghost function Edges(alive: set<nat>, rest: seq<nat>): set<set<nat>>
    requires Code(alive, rest)
    decreases |rest|
  {
    if rest == [] then {alive}
    else
      NextCode(alive, rest);
      {{MinLeaf(alive, rest), rest[0]}} + Edges(alive - {MinLeaf(alive, rest)}, rest[1..])
  }

  lemma {:induction false} EdgesWithin(alive: set<nat>, rest: seq<nat>, e: set<nat>)
    requires Code(alive, rest) && e in Edges(alive, rest)
    ensures e <= alive && |e| == 2
    decreases |rest|
  {
    if rest != [] {
      NextCode(alive, rest);
      var leaf := MinLeaf(alive, rest);
      if e == {leaf, rest[0]} {
        PairSize(leaf, rest[0]);
      } else {
        EdgesWithin(alive - {leaf}, rest[1..], e);
      }
    }
  }

  lemma PairSize(a: nat, b: nat)
    requires a != b
    ensures |{a, b}| == 2
  {
    assert {a, b} == {a} + {b};
  }

  ghost function Incident(edges: set<set<nat>>, i: nat): (r: set<set<nat>>)
    ensures forall e :: e in r <==> e in edges && i in e
  {
    set e | e in edges && i in e
  }

  /** A label has one edge more than it has entries. */
  lemma {:induction false} Degree(alive: set<nat>, rest: seq<nat>, i: nat)
    requires Code(alive, rest) && i in alive
    ensures |Incident(Edges(alive, rest), i)| == 1 + Count(rest, i)
    decreases |rest|
  {
    if rest == [] {
      assert Incident(Edges(alive, rest), i) == {alive};
    } else {
      NextCode(alive, rest);
      var leaf, p := MinLeaf(alive, rest), rest[0];
      var later := Edges(alive - {leaf}, rest[1..]);
      var e := {leaf, p};
      LaterAvoidsLeaf(alive, rest);
      if i == leaf {
        CountIn(rest, leaf);
        assert Incident(Edges(alive, rest), leaf) == {e};
      } else {
        Degree(alive - {leaf}, rest[1..], i);
        assert Incident(Edges(alive, rest), i) == Incident(later, i) + if i == p then {e} else {};
      }
    }
  }

  /** Once retired, a leaf gets no more edges. */
  lemma LaterAvoidsLeaf(alive: set<nat>, rest: seq<nat>)
    requires Code(alive, rest) && rest != []
    ensures Code(alive - {MinLeaf(alive, rest)}, rest[1..])
    ensures forall e :: e in Edges(alive - {MinLeaf(alive, rest)}, rest[1..]) ==> MinLeaf(alive, rest) !in e
  {
    NextCode(alive, rest);
    var leaf := MinLeaf(alive, rest);
    forall e | e in Edges(alive - {leaf}, rest[1..]) ensures leaf !in e {
      EdgesWithin(alive - {leaf}, rest[1..], e);
    }
  }

  lemma SameLeaf(alive: set<nat>, a: seq<nat>, b: seq<nat>)
    requires Code(alive, a) && Code(alive, b) && Edges(alive, a) == Edges(alive, b)
    ensures MinLeaf(alive, a) == MinLeaf(alive, b)
  {
    hide Edges;
    forall i | i in alive ensures i in a <==> i in b {
      Degree(alive, a, i);
      Degree(alive, b, i);
      CountIn(a, i);
      CountIn(b, i);
    }
    assert Leaves(alive, a) == Leaves(alive, b);
  }

  /** The first entry is the label the smallest leaf is joined to. */
  lemma SameFirst(alive: set<nat>, a: seq<nat>, b: seq<nat>)
    requires Code(alive, a) && Code(alive, b) && a != [] && b != [] && Edges(alive, a) == Edges(alive, b)
    requires MinLeaf(alive, a) == MinLeaf(alive, b)
    ensures a[0] == b[0]
  {
    var leaf := MinLeaf(alive, a);
    LaterAvoidsLeaf(alive, a);
    LaterAvoidsLeaf(alive, b);
    NextCode(alive, a);
    assert {leaf, a[0]} in Edges(alive, b);
    assert {leaf, a[0]} == {leaf, b[0]} by {
      assert leaf in {leaf, a[0]};
    }
    assert a[0] in {leaf, b[0]};
  }

  /** No two codes stand for the same tree: a uniform code is a uniform labelled tree. */
  lemma {:induction false} EdgesInjective(alive: set<nat>, a: seq<nat>, b: seq<nat>)
    requires Code(alive, a) && Code(alive, b) && Edges(alive, a) == Edges(alive, b)
    ensures a == b
    decreases |a|
  {
    if a != [] {
      assert b != [];
      SameLeaf(alive, a, b);
      SameFirst(alive, a, b);
      var leaf := MinLeaf(alive, a);
      LaterAvoidsLeaf(alive, a);
      LaterAvoidsLeaf(alive, b);
      var e := {leaf, a[0]};
      assert leaf in e;
      assert Edges(alive - {leaf}, a[1..]) == Edges(alive, a) - {e};
      assert Edges(alive - {leaf}, b[1..]) == Edges(alive, b) - {e};
      EdgesInjective(alive - {leaf}, a[1..], b[1..]);
      assert a == [a[0]] + a[1..] && b == [b[0]] + b[1..];
    }
  }
}

/** Sets of sequence numbers in boundary encoding: even positions start a range, odd positions
    end it, and an odd-length list is open-ended. */
module Ranges {
  const SEQ_MAX: int := 0xFFFF_FFFF

  /** The source's `u32`. */
  type Seq = n: int | 0 <= n <= SEQ_MAX witness 0

  ghost predicate Increasing(b: seq<Seq>) {
    forall i, j :: 0 <= i < j < |b| ==> b[i] < b[j]
  }

  /** A valid boundary list. */
  type Ranges = b: seq<Seq> | Increasing(b) witness []

  datatype Option<+T> = None | Some(value: T)

  // ---- Membership ----

  /** Walking the boundaries at or below `x`, each one flips membership. */
  predicate Flip(b: seq<Seq>, inside: bool, x: Seq) {
    if b == [] || x < b[0] then inside else Flip(b[1..], !inside, x)
  }

  predicate Contains(r: Ranges, x: Seq) {
    Flip(r, false, x)
  }

  /** How many leading boundaries are at or below `x`. */
  function PartitionPoint(b: seq<Seq>, x: Seq): nat {
    if b == [] || x < b[0] then 0 else 1 + PartitionPoint(b[1..], x)
  }

  /** Membership is the parity of the partition point, which is how the source decides it. */
  lemma {:induction false} FlipIsParity(b: seq<Seq>, inside: bool, x: Seq)
    ensures Flip(b, inside, x) == (inside != (PartitionPoint(b, x) % 2 == 1))
  {
    if b != [] && b[0] <= x {
      FlipIsParity(b[1..], !inside, x);
    }
  }

  lemma ContainsIsParity(r: Ranges, x: Seq)
    ensures Contains(r, x) <==> PartitionPoint(r, x) % 2 == 1
  {
    FlipIsParity(r, false, x);
  }

  /** Boundaries above `x` do not matter to it. */
  lemma {:induction false} FlipPrefix(b: seq<Seq>, p: seq<Seq>, inside: bool, x: Seq)
    requires forall i :: 0 <= i < |p| ==> x < p[i]
    ensures Flip(b + p, inside, x) == Flip(b, inside, x)
  {
    if b == [] {
      assert b + p == p;
    } else {
      assert (b + p)[1..] == b[1..] + p;
      if b[0] <= x {
        FlipPrefix(b[1..], p, !inside, x);
      }
    }
  }

  /** Past every boundary, membership is the parity of their number. */
  lemma {:induction false} FlipAll(b: seq<Seq>, inside: bool, x: Seq)
    requires forall i :: 0 <= i < |b| ==> b[i] <= x
    ensures Flip(b, inside, x) == (inside != (|b| % 2 == 1))
  {
    if b != [] {
      FlipAll(b[1..], !inside, x);
    }
  }

  /** The encoding is canonical: equal sets have equal boundary lists. */
  lemma {:induction false} FlipCanonical(a: Ranges, b: Ranges, inside: bool)
    requires forall x: Seq :: Flip(a, inside, x) == Flip(b, inside, x)
    ensures a == b
    decreases |a|
  {
    if a != [] {
      FlipAtHead(a, inside);
      assert Flip(a, inside, a[0]) == Flip(b, inside, a[0]);
    }
    if b != [] {
      FlipAtHead(b, inside);
      assert Flip(a, inside, b[0]) == Flip(b, inside, b[0]);
    }
    if a != [] && b != [] {
      var outside := !inside;
      forall x: Seq ensures Flip(a[1..], outside, x) == Flip(b[1..], outside, x) {
        assert Flip(a, inside, x) == Flip(b, inside, x);
      }
      FlipCanonical(a[1..], b[1..], outside);
      assert a == [a[0]] + a[1..] && b == [b[0]] + b[1..];
    }
  }

  lemma FlipAtHead(a: Ranges, inside: bool)
    requires a != []
    ensures Flip(a, inside, a[0]) == !inside
    ensures forall x: Seq :: x < a[0] ==> Flip(a, inside, x) == inside
  {
    assert Flip(a[1..], !inside, a[0]) == !inside;
  }

  lemma Canonical(a: Ranges, b: Ranges)
    requires forall x: Seq :: Contains(a, x) <==> Contains(b, x)
    ensures a == b
  {
    forall x: Seq ensures Flip(a, false, x) == Flip(b, false, x) {
      assert Contains(a, x) <==> Contains(b, x);
    }
    FlipCanonical(a, b, false);
  }

  /** A non-empty list has a member: emptiness of the list is emptiness of the set. */
  lemma NonEmptyHasMember(r: Ranges)
    requires r != []
    ensures Contains(r, r[0])
  {
    FlipAtHead(r, false);
  }

  // ---- The sweep ----

  /** A connective on memberships: any `f` with `f(false, false) == false`, as its truth table. */
  datatype Connective = Connective(both: bool, left: bool, right: bool) {
    predicate Eval(x: bool, y: bool) {
      if x && y then both else if x then left else y && right
    }
  }

  const OR := Connective(true, true, true)
  const AND := Connective(true, false, false)
  const MINUS := Connective(false, true, false)

  function NextBoundary(a: seq<Seq>, b: seq<Seq>): Seq
    requires a != [] || b != []
  {
    if b == [] || (a != [] && a[0] <= b[0]) then a[0] else b[0]
  }

  predicate Hit(a: seq<Seq>, p: Seq) {
    a != [] && a[0] == p
  }

  function Skip(a: seq<Seq>, p: Seq): seq<Seq> {
    if Hit(a, p) then a[1..] else a
  }

  /** The merged boundary sweep: at every boundary `p` of either set, evaluate `f` on the two
      memberships and emit `p` whenever the result flips. */
  function Sweep(a: seq<Seq>, b: seq<Seq>, ina: bool, inb: bool, inside: bool, f: Connective): seq<Seq>
    decreases |a| + |b|
  {
    if a == [] && b == [] then []
    else
      var p := NextBoundary(a, b);
      var now := f.Eval(ina != Hit(a, p), inb != Hit(b, p));
      (if now != inside then [p] else [])
      + Sweep(Skip(a, p), Skip(b, p), ina != Hit(a, p), inb != Hit(b, p), now, f)
  }

  ghost predicate Above(b: seq<Seq>, p: int) {
    forall i :: 0 <= i < |b| ==> p < b[i]
  }

  lemma SkipAbove(a: Ranges, p: Seq)
    requires Above(a, p - 1)
    ensures Increasing(Skip(a, p)) && Above(Skip(a, p), p)
  {
    if a != [] {
      assert p - 1 < a[0];
    }
  }

  lemma NextIsLeast(a: Ranges, b: Ranges, q: int)
    requires a != [] || b != []
    requires Above(a, q) && Above(b, q)
    ensures q < NextBoundary(a, b)
    ensures Above(a, NextBoundary(a, b) - 1) && Above(b, NextBoundary(a, b) - 1)
  {
    if a != [] {
      assert forall i :: 0 < i < |a| ==> a[0] < a[i];
    }
    if b != [] {
      assert forall i :: 0 < i < |b| ==> b[0] < b[i];
    }
  }

  lemma SweepUnfolds(a: Ranges, b: Ranges, ina: bool, inb: bool, inside: bool, f: Connective)
    requires a != [] || b != []
    ensures var p := NextBoundary(a, b);
            var now := f.Eval(ina != Hit(a, p), inb != Hit(b, p));
            Sweep(a, b, ina, inb, inside, f)
            == (if now != inside then [p] else [])
               + Sweep(Skip(a, p), Skip(b, p), ina != Hit(a, p), inb != Hit(b, p), now, f)
  {
  }

  lemma EmitIncreasing(p: Seq, rest: Ranges, q: int, emit: bool)
    requires q < p && Above(rest, p)
    ensures Increasing((if emit then [p] else []) + rest) && Above((if emit then [p] else []) + rest, q)
  {
    if !emit {
      assert [] + rest == rest;
    }
  }

  lemma {:induction false} SweepIncreasing(a: Ranges, b: Ranges, ina: bool, inb: bool, inside: bool,
                                           f: Connective, q: int)
    requires Above(a, q) && Above(b, q)
    ensures Increasing(Sweep(a, b, ina, inb, inside, f)) && Above(Sweep(a, b, ina, inb, inside, f), q)
    decreases |a| + |b|
  {
    if a != [] || b != [] {
      var p := NextBoundary(a, b);
      NextIsLeast(a, b, q);
      SkipAbove(a, p);
      SkipAbove(b, p);
      var ina', inb' := ina != Hit(a, p), inb != Hit(b, p);
      SweepIncreasing(Skip(a, p), Skip(b, p), ina', inb', f.Eval(ina', inb'), f, p);
      SweepUnfolds(a, b, ina, inb, inside, f);
      EmitIncreasing(p, Sweep(Skip(a, p), Skip(b, p), ina', inb', f.Eval(ina', inb'), f), q, f.Eval(ina', inb') != inside);
    }
  }

  /** Moving a cursor over a boundary `p <= x` keeps the verdict at `x`. */
  lemma FlipSkip(a: Ranges, p: Seq, ina: bool, x: Seq)
    requires Above(a, p - 1) && p <= x
    ensures Flip(a, ina, x) == Flip(Skip(a, p), ina != Hit(a, p), x)
  {
  }

  /** Below the next boundary the sweep changes nothing. */
  lemma SweepBelow(a: Ranges, b: Ranges, ina: bool, inb: bool, inside: bool, f: Connective, x: Seq)
    requires Above(a, x) && Above(b, x)
    ensures Flip(Sweep(a, b, ina, inb, inside, f), inside, x) == inside
    ensures Flip(a, ina, x) == ina && Flip(b, inb, x) == inb
  {
    SweepIncreasing(a, b, ina, inb, inside, f, x);
  }

  /** Crossing a boundary list's head: emitted exactly if the verdict flips there. */
  lemma EmitFlips(p: Seq, rest: seq<Seq>, inside: bool, now: bool, x: Seq)
    requires p <= x
    ensures Flip((if now != inside then [p] else []) + rest, inside, x) == Flip(rest, now, x)
  {
    if now != inside {
      assert ([p] + rest)[1..] == rest;
    } else {
      assert [] + rest == rest;
    }
  }

  /** The sweep denotes `f` pointwise. */
  lemma {:induction false} SweepDenotes(a: Ranges, b: Ranges, ina: bool, inb: bool, f: Connective, x: Seq)
    ensures Flip(Sweep(a, b, ina, inb, f.Eval(ina, inb), f), f.Eval(ina, inb), x)
            == f.Eval(Flip(a, ina, x), Flip(b, inb, x))
    decreases |a| + |b|
  {
    if a != [] || b != [] {
      var p := NextBoundary(a, b);
      NextIsLeast(a, b, -1);
      if x < p {
        SweepBelow(a, b, ina, inb, f.Eval(ina, inb), f, x);
      } else {
        var ina', inb' := ina != Hit(a, p), inb != Hit(b, p);
        SkipAbove(a, p);
        SkipAbove(b, p);
        FlipSkip(a, p, ina, x);
        FlipSkip(b, p, inb, x);
        SweepUnfolds(a, b, ina, inb, f.Eval(ina, inb), f);
        EmitFlips(p, Sweep(Skip(a, p), Skip(b, p), ina', inb', f.Eval(ina', inb'), f),
                  f.Eval(ina, inb), f.Eval(ina', inb'), x);
        SweepDenotes(Skip(a, p), Skip(b, p), ina', inb', f, x);
      }
    }
  }

  function Combine(a: Ranges, b: Ranges, f: Connective): (r: Ranges)
    ensures forall x: Seq :: Contains(r, x) <==> f.Eval(Contains(a, x), Contains(b, x))
  {
    SweepIncreasing(a, b, false, false, false, f, -1);
    CombineDenotes(a, b, f);
    Sweep(a, b, false, false, false, f)
  }

  lemma CombineDenotes(a: Ranges, b: Ranges, f: Connective)
    requires Increasing(Sweep(a, b, false, false, false, f))
    ensures forall x: Seq :: Contains(Sweep(a, b, false, false, false, f), x)
                             <==> f.Eval(Contains(a, x), Contains(b, x))
  {
    forall x: Seq
      ensures Contains(Sweep(a, b, false, false, false, f), x) <==> f.Eval(Contains(a, x), Contains(b, x))
    {
      SweepDenotes(a, b, false, false, f, x);
    }
  }

  function Union(a: Ranges, b: Ranges): (r: Ranges)
    ensures forall x: Seq :: Contains(r, x) <==> Contains(a, x) || Contains(b, x)
  {
    Combine(a, b, OR)
  }

  function Intersection(a: Ranges, b: Ranges): (r: Ranges)
    ensures forall x: Seq :: Contains(r, x) <==> Contains(a, x) && Contains(b, x)
  {
    Combine(a, b, AND)
  }

  function Difference(a: Ranges, b: Ranges): (r: Ranges)
    ensures forall x: Seq :: Contains(r, x) <==> Contains(a, x) && !Contains(b, x)
  {
    Combine(a, b, MINUS)
  }

  const FULL: Ranges := [0]

  lemma FullContains(x: Seq)
    ensures Contains(FULL, x)
  {
    assert FULL[1..] == [];
  }

  function Complement(a: Ranges): (r: Ranges)
    ensures forall x: Seq :: Contains(r, x) <==> !Contains(a, x)
  {
    assert forall x: Seq :: Contains(FULL, x) by {
      forall x: Seq ensures Contains(FULL, x) { FullContains(x); }
    }
    Difference(FULL, a)
  }

  /** Stepping a cursor is skipping a boundary of the suffix it points at. */
  lemma CursorSkips(a: Ranges, i: nat, p: Seq)
    requires i <= |a|
    ensures Hit(a[i..], p) ==> i < |a| && Skip(a[i..], p) == a[i + 1..]
    ensures Hit(a[i..], p) <==> i < |a| && a[i] == p
  {
  }

  /** One turn of the loop below, seen on the suffixes its cursors point at. */
  lemma SweepTurn(a: Ranges, b: Ranges, i: nat, j: nat, ina: bool, inb: bool, inside: bool, f: Connective, p: Seq)
    requires i <= |a| && j <= |b| && (i < |a| || j < |b|)
    requires p == if j == |b| || (i < |a| && a[i] <= b[j]) then a[i] else b[j]
    ensures var hita, hitb := i < |a| && a[i] == p, j < |b| && b[j] == p;
            var now := f.Eval(ina != hita, inb != hitb);
            Sweep(a[i..], b[j..], ina, inb, inside, f)
            == (if now != inside then [p] else [])
               + Sweep(a[if hita then i + 1 else i..], b[if hitb then j + 1 else j..], ina != hita, inb != hitb, now, f)
  {
    CursorSkips(a, i, p);
    CursorSkips(b, j, p);
    assert p == NextBoundary(a[i..], b[j..]);
    SweepUnfolds(a[i..], b[j..], ina, inb, inside, f);
  }

  lemma SweepDone(a: Ranges, b: Ranges, ina: bool, inb: bool, inside: bool, f: Connective)
    ensures Sweep(a[|a|..], b[|b|..], ina, inb, inside, f) == []
  {
  }

  /** `combine`: two cursors over the boundary lists, one output list. The parities of the cursors
      are the memberships the sweep carries. */
  method CombineLoop(a: Ranges, b: Ranges, f: Connective) returns (out: seq<Seq>)
    ensures out == Combine(a, b, f)
  {
    var i, j := 0, 0;
    out := [];
    var inside := false;
    ghost var ina, inb := false, false;
    ghost var rest := Sweep(a, b, false, false, false, f);
    ghost var whole := rest;
    assert a[0..] == a && b[0..] == b && [] + rest == whole;
    while i < |a| || j < |b|
      invariant 0 <= i <= |a| && 0 <= j <= |b|
      invariant ina == (i % 2 == 1) && inb == (j % 2 == 1)
      invariant rest == Sweep(a[i..], b[j..], ina, inb, inside, f)
      invariant out + rest == whole
      decreases |a| - i + |b| - j
    {
      var p := if j == |b| || (i < |a| && a[i] <= b[j]) then a[i] else b[j];
      SweepTurn(a, b, i, j, ina, inb, inside, f, p);
      ghost var rest0 := rest;
      var hita, hitb := i < |a| && a[i] == p, j < |b| && b[j] == p;
      OddStep(i, hita);
      OddStep(j, hitb);
      ina, inb := ina != hita, inb != hitb;
      i, j := if hita then i + 1 else i, if hitb then j + 1 else j;
      var now := f.Eval(i % 2 == 1, j % 2 == 1);
      rest := Sweep(a[i..], b[j..], ina, inb, now, f);
      ghost var emitted := if now != inside then [p] else [];
      assert rest0 == emitted + rest;
      Reassociate(out, emitted, rest, rest0, whole);
      if now != inside {
        out := out + [p];
      } else {
        assert out + [] == out;
      }
      inside := now;
    }
    SweepDone(a, b, ina, inb, inside, f);
  }

  lemma OddStep(i: nat, hit: bool)
    ensures ((if hit then i + 1 else i) % 2 == 1) == ((i % 2 == 1) != hit)
  {
  }

  lemma Reassociate(out: seq<Seq>, emitted: seq<Seq>, rest: seq<Seq>, rest0: seq<Seq>, whole: seq<Seq>)
    requires rest0 == emitted + rest && out + rest0 == whole
    ensures out + emitted + rest == whole
  {
  }

  // ---- Building from sequence numbers, and reading back ----

  ghost predicate StrictlySorted(s: seq<Seq>) {
    Increasing(s)
  }

  lemma TailAbove(s: seq<Seq>)
    requires StrictlySorted(s) && s != []
    ensures StrictlySorted(s[1..])
    ensures forall y :: y in s[1..] ==> s[0] < y
    ensures forall y :: y in s <==> y == s[0] || y in s[1..]
  {
    assert s == [s[0]] + s[1..];
    forall i | 0 <= i < |s[1..]| ensures s[0] < s[1..][i] {
      assert s[1..][i] == s[i + 1];
    }
  }

  function InsertSorted(x: Seq, s: seq<Seq>): (r: seq<Seq>)
    requires StrictlySorted(s)
    ensures StrictlySorted(r)
    ensures forall y :: y in r <==> y == x || y in s
  {
    if s == [] then [x]
    else if x < s[0] then [x] + s
    else if x == s[0] then s
    else
      TailAbove(s);
      var rest := InsertSorted(x, s[1..]);
      assert forall i :: 0 <= i < |rest| ==> rest[i] in rest;
      [s[0]] + rest
  }

  /** `sort_unstable` followed by `dedup`. */
  function SortDedup(s: seq<Seq>): (r: seq<Seq>)
    ensures StrictlySorted(r)
    ensures forall y :: y in r <==> y in s
  {
    if s == [] then []
    else
      assert s == [s[0]] + s[1..];
      InsertSorted(s[0], SortDedup(s[1..]))
  }

  /** Two strictly sorted sequences with the same members are the same sequence. */
  lemma {:induction false} SortedUnique(a: seq<Seq>, b: seq<Seq>)
    requires StrictlySorted(a) && StrictlySorted(b)
    requires forall y :: y in a <==> y in b
    ensures a == b
  {
    if a != [] {
      assert a[0] in b;
    }
    if b != [] {
      assert b[0] in a;
    }
    if a != [] && b != [] {
      TailAbove(a);
      TailAbove(b);
      assert a == [a[0]] + a[1..] && b == [b[0]] + b[1..];
      forall y ensures y in a[1..] <==> y in b[1..] {
        assert y in a <==> y in b;
      }
      SortedUnique(a[1..], b[1..]);
    }
  }

  /** Appending one boundary above all the others. */
  lemma FlipSnoc(b: Ranges, p: Seq, x: Seq)
    requires forall i :: 0 <= i < |b| ==> b[i] < p
    ensures Contains(b + [p], x) == if x < p then Contains(b, x) else |b| % 2 == 0
  {
    if x < p {
      FlipPrefix(b, [p], false, x);
    } else {
      FlipAll(b + [p], false, x);
    }
  }

  /** Extending the last closed range by one. */
  lemma FlipExtend(b: Ranges, end: Seq, x: Seq)
    requires b != [] && |b| % 2 == 0 && b[|b| - 1] == end
    ensures Contains(b[..|b| - 1], x) == if x < end then Contains(b, x) else true
  {
    var front := b[..|b| - 1];
    assert b == front + [end];
    if x < end {
      FlipPrefix(front, [end], false, x);
    } else {
      FlipAll(front, false, x);
    }
  }

  /** The boundary list covers nothing above `last`, and ends right after it if it can. */
  ghost predicate EndsAt(b: Ranges, last: int) {
    && (forall i :: 0 <= i < |b| ==> b[i] <= last + 1)
    && (b != [] ==> if |b| % 2 == 0 then b[|b| - 1] == last + 1 else last == SEQ_MAX)
  }

  /** Open a range at `s`, or continue the one that ends there. */
  function OpenAt(b: Ranges, s: Seq): seq<Seq> {
    if b != [] && |b| % 2 == 0 && b[|b| - 1] == s then b[..|b| - 1] else b + [s]
  }

  lemma OpenAtContains(b: Ranges, s: Seq, last: int)
    requires EndsAt(b, last) && last < s
    ensures Increasing(OpenAt(b, s)) && |OpenAt(b, s)| % 2 == 1
    ensures forall i :: 0 <= i < |OpenAt(b, s)| ==> OpenAt(b, s)[i] <= s
    ensures forall x: Seq :: Contains(OpenAt(b, s), x) <==> Contains(b, x) || s <= x
  {
    if b != [] && b[|b| - 1] == s {
      forall x: Seq ensures Contains(OpenAt(b, s), x) <==> Contains(b, x) || s <= x {
        FlipExtend(b, s, x);
      }
    } else {
      forall i | 0 <= i < |b| ensures b[i] < s {
        assert i < |b| - 1 ==> b[i] < b[|b| - 1];
      }
      forall x: Seq ensures Contains(OpenAt(b, s), x) <==> Contains(b, x) || s <= x {
        FlipSnoc(b, s, x);
      }
    }
  }

  lemma EndsAtBounds(b: Ranges, last: int, x: Seq)
    requires EndsAt(b, last) && last < x
    ensures !Contains(b, x)
  {
    FlipAll(b, false, x);
  }

  lemma CloseAfter(b: Ranges, s: Seq, before: Ranges, last: int)
    requires EndsAt(before, last) && last < s < SEQ_MAX
    requires |b| % 2 == 1 && forall i :: 0 <= i < |b| ==> b[i] <= s
    requires forall x: Seq :: Contains(b, x) <==> Contains(before, x) || s <= x
    ensures Increasing(b + [s + 1])
    ensures forall x: Seq :: Contains(b + [s + 1], x) <==> Contains(before, x) || x == s
  {
    forall x: Seq ensures Contains(b + [s + 1], x) <==> Contains(before, x) || x == s {
      FlipSnoc(b, s + 1, x);
      if s < x {
        EndsAtBounds(before, last, x);
      }
    }
  }

  function AppendSeq(b: Ranges, s: Seq): seq<Seq> {
    if s < SEQ_MAX then OpenAt(b, s) + [s + 1] else OpenAt(b, s)
  }

  lemma AppendSeqContains(b: Ranges, s: Seq, last: int)
    requires EndsAt(b, last) && last < s
    ensures Increasing(AppendSeq(b, s)) && EndsAt(AppendSeq(b, s), s)
    ensures forall x: Seq :: Contains(AppendSeq(b, s), x) <==> Contains(b, x) || x == s
  {
    OpenAtContains(b, s, last);
    if s < SEQ_MAX {
      CloseAfter(OpenAt(b, s), s, b, last);
    }
  }

  /** `from_seqs`: per sorted sequence number, extend the last range or open a new one. The source's
      third case, a number after an open range, cannot arise: only the largest number opens one. */
  method FromSeqs(seqs: seq<Seq>) returns (out: Ranges)
    ensures forall x: Seq :: Contains(out, x) <==> x in seqs
  {
    var sorted := SortDedup(seqs);
    out := [];
    ghost var last: int := -1;
    ghost var done: seq<Seq> := [];
    for k := 0 to |sorted|
      invariant EndsAt(out, last) && done == sorted[..k]
      invariant last == if k == 0 then -1 else sorted[k - 1]
      invariant forall x: Seq :: Contains(out, x) <==> x in done
    {
      var s := sorted[k];
      AppendSeqContains(out, s, last);
      var next := if out != [] && |out| % 2 == 0 && out[|out| - 1] == s then out[..|out| - 1] else out + [s];
      if s < SEQ_MAX {
        next := next + [s + 1];
      }
      out := next;
      done := done + [s];
      last := s;
    }
  }

  // ---- Reading back ----

  /** The numbers `lo .. hi`. */
  function Span(lo: int, hi: int): (r: seq<Seq>)
    requires 0 <= lo <= hi <= SEQ_MAX + 1
    ensures |r| == hi - lo && StrictlySorted(r)
    ensures forall x: Seq :: x in r <==> lo <= x < hi
    decreases hi - lo
  {
    if lo == hi then []
    else
      var rest := Span(lo + 1, hi);
      assert forall i :: 0 <= i < |rest| ==> rest[i] in rest;
      [lo] + rest
  }

  /** `iter`: every member, ascending; an open tail runs to the last sequence number. */
  function Iter(r: Ranges): seq<Seq>
  {
    if r == [] then []
    else if |r| == 1 then Span(r[0], SEQ_MAX + 1)
    else Span(r[0], r[1]) + Iter(r[2..])
  }

  lemma FlipTwice(r: Ranges, x: Seq)
    requires |r| >= 2
    ensures Contains(r, x) <==> r[0] <= x < r[1] || Contains(r[2..], x)
    ensures Contains(r[2..], x) ==> r[1] <= x
  {
    assert r[1..][1..] == r[2..];
    assert Contains(r, x) == if x < r[0] then false else Flip(r[1..], true, x);
    assert Flip(r[1..], true, x) == if x < r[1] then true else Contains(r[2..], x);
    if |r| > 2 {
      assert r[2..][0] == r[2];
    }
  }

  /** `iter` lists exactly the members, in strictly ascending order. */
  lemma {:induction false} IterListsMembers(r: Ranges)
    ensures StrictlySorted(Iter(r))
    ensures forall x: Seq :: x in Iter(r) <==> Contains(r, x)
  {
    if |r| == 1 {
      assert r[1..] == [];
      forall x: Seq ensures Contains(r, x) <==> r[0] <= x {
        assert Contains(r, x) == if x < r[0] then false else Flip(r[1..], true, x);
      }
    } else if |r| >= 2 {
      IterListsMembers(r[2..]);
      forall x: Seq ensures Contains(r, x) <==> x in Span(r[0], r[1]) || x in Iter(r[2..]) {
        FlipTwice(r, x);
      }
      var head, tail := Span(r[0], r[1]), Iter(r[2..]);
      forall j | 0 <= j < |tail| ensures r[1] <= tail[j] {
        assert tail[j] in tail;
        FlipTwice(r, tail[j]);
      }
      forall i | 0 <= i < |head| ensures head[i] < r[1] {
        assert head[i] in head;
      }
    }
  }

  /** Building from any sequence numbers and reading back sorts and de-duplicates them, the largest
      sequence number included. */
  lemma RoundTrip(seqs: seq<Seq>, r: Ranges)
    requires forall x: Seq :: Contains(r, x) <==> x in seqs
    ensures Iter(r) == SortDedup(seqs)
  {
    IterListsMembers(r);
    SortedUnique(Iter(r), SortDedup(seqs));
  }

  predicate IsOpen(r: Ranges) {
    |r| % 2 == 1
  }

  function SpanLengths(r: seq<Seq>): int
    requires |r| % 2 == 0
  {
    if r == [] then 0 else r[1] - r[0] + SpanLengths(r[2..])
  }

  /** `len`: defined for closed sets only. */
  function Len(r: Ranges): Option<int> {
    if IsOpen(r) then None else Some(SpanLengths(r))
  }

  ghost function Members(r: Ranges): set<int> {
    set x: int | 0 <= x <= SEQ_MAX && Contains(r, x)
  }

  lemma {:induction false} SpanLengthsIsIterLength(r: Ranges)
    requires !IsOpen(r)
    ensures SpanLengths(r) == |Iter(r)|
  {
    if r != [] {
      SpanLengthsIsIterLength(r[2..]);
    }
  }

  lemma {:induction false} SortedLengthIsCardinality(s: seq<Seq>, m: set<int>)
    requires StrictlySorted(s)
    requires forall x: int :: x in m <==> 0 <= x <= SEQ_MAX && x in s
    ensures |m| == |s|
  {
    if s == [] {
      assert forall x: int :: x !in m;
    } else {
      assert s[0] in s;
      var m' := m - {s[0] as int};
      forall x: int ensures x in m' <==> 0 <= x <= SEQ_MAX && x in s[1..] {
        assert s == [s[0]] + s[1..];
      }
      SortedLengthIsCardinality(s[1..], m');
    }
  }

  /** `len` of a closed set is its cardinality. */
  lemma LenIsCardinality(r: Ranges)
    requires !IsOpen(r)
    ensures Len(r) == Some(|Members(r)|)
  {
    SpanLengthsIsIterLength(r);
    IterListsMembers(r);
    SortedLengthIsCardinality(Iter(r), Members(r));
  }

  /** `last`: the largest member of a closed non-empty set. */
  function Last(r: Ranges): Option<Seq> {
    if IsOpen(r) || r == [] then None else Some(LastClosed(r))
  }

  function LastClosed(r: Ranges): Seq
    requires !IsOpen(r) && r != []
  {
    assert r[0] < r[|r| - 1];
    r[|r| - 1] - 1
  }

  lemma LastIsGreatest(r: Ranges)
    requires Last(r).Some?
    ensures Contains(r, Last(r).value)
    ensures forall x: Seq :: Contains(r, x) ==> x <= Last(r).value
  {
    var front, end := r[..|r| - 1], r[|r| - 1];
    assert r == front + [end];
    forall x: Seq ensures Contains(r, x) == if x < end then Contains(front, x) else false {
      FlipSnoc(front, end, x);
    }
    FlipAll(front, false, end - 1);
  }

  // ---- The Ranges of a finite set ----

  lemma EmptyContainsNothing()
    ensures forall x: Seq :: !Contains([], x)
  {
  }

  /** The one `Ranges` denoting a finite set: what `from_seqs` returns for any listing of it. */
  ghost function OfSet(s: set<Seq>): (r: Ranges)
    ensures forall x: Seq :: Contains(r, x) <==> x in s
  {
    if s == {} then []
    else
      var x :| x in s;
      SingleContains(x);
      Union(OfSet(s - {x}), Single(x))
  }

  function Single(x: Seq): Ranges {
    if x == SEQ_MAX then [x] else [x, x + 1]
  }

  lemma SingleContains(x: Seq)
    ensures forall y: Seq :: Contains(Single(x), y) <==> y == x
  {
    var r: Ranges := Single(x);
    forall y: Seq ensures Contains(r, y) <==> y == x {
      if x == SEQ_MAX {
        FlipSnoc([], x, y);
        assert r == [] + [x];
      } else {
        FlipSnoc([], x, y);
        FlipSnoc([x], x + 1, y);
        assert [] + [x] == [x] && r == [x] + [x + 1];
      }
    }
  }
}

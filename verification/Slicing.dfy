/** Splitting a Want into frames that each fit a byte budget and together ask the same. */
module Slicing {
  import R = Ranges
  import opened Logs
  import LR = LogRanges
  import I = Interests
  import opened Storage

  type AuthorMap = LR.AuthorMap

  /** How many bytes things encode to. A one-entry Want is its parts plus one varint per bound. */
  datatype Encoder = Encoder(want: I.Interest -> nat, base: Channel -> nat, have: AuthorMap -> nat)

  ghost predicate Additive(w: Encoder) {
    && (forall c: Channel, e: I.Entry :: w.want(map[c := e]) == w.base(c) + VarintLen(e.lo) + VarintLen(e.hi) + w.have(e.have))
    && (forall m: AuthorMap, n: AuthorMap :: m.Keys <= n.Keys && SubMap(m, n) ==> w.have(m) <= w.have(n))
  }

  predicate SubMap(m: AuthorMap, n: AuthorMap) {
    forall a :: a in m ==> a in n && m[a] == n[a]
  }

  // ---- Varints ----

  function VarintLen(v: Seq): (n: nat)
    ensures 1 <= n <= 5
  {
    if v <= 0x7f then 1
    else if v <= 0x3fff then 2
    else if v <= 0x1f_ffff then 3
    else if v <= 0xfff_ffff then 4
    else 5
  }

  function Pow128(n: nat): nat {
    if n == 0 then 1 else 128 * Pow128(n - 1)
  }

  /** It is the number of seven-bit groups of `v`. */
  lemma VarintLenIsMinimal(v: Seq)
    ensures v < Pow128(VarintLen(v))
    ensures VarintLen(v) > 1 ==> Pow128(VarintLen(v) - 1) <= v
  {
    assert Pow128(1) == 128 && Pow128(2) == 16384 && Pow128(3) == 2097152 && Pow128(4) == 268435456;
    assert Pow128(5) == 34359738368;
  }

  // ---- Fitting ----

  function Slack(e: I.Entry): nat {
    (5 - VarintLen(e.lo)) + (5 - VarintLen(e.hi))
  }

  /** Fits with the entry's own bounds and room for the widest pair. */
  predicate Fits(w: Encoder, c: Channel, e: I.Entry, budget: nat, have: AuthorMap) {
    match I.NewEntry(e.lo, e.hi, have)
    case None => false
    case Some(entry) => w.want(map[c := entry]) + Slack(e) <= budget
  }

  /** Claims that can be made within `e`'s scope. */
  ghost predicate Claims(e: I.RawEntry, have: AuthorMap) {
    forall a :: a in have ==> I.InScope(e, a) && have[a] != []
  }

  lemma FitsMeans(w: Encoder, c: Channel, e: I.Entry, budget: nat, have: AuthorMap)
    requires Additive(w) && Claims(e, have)
    ensures Fits(w, c, e, budget, have) <==> w.base(c) + 10 + w.have(have) <= budget
  {
    var entry := I.NewEntry(e.lo, e.hi, have).value;
    assert entry.have == have by {
      assert forall a :: a in have ==> have[a] != [];
    }
    assert w.want(map[c := entry]) == w.base(c) + VarintLen(e.lo) + VarintLen(e.hi) + w.have(have);
  }

  /** Whatever its own bounds, a slice of a fitting have fits the budget. */
  lemma SliceFits(w: Encoder, c: Channel, e: I.Entry, budget: nat, s: I.Entry)
    requires Additive(w) && Claims(e, s.have) && Fits(w, c, e, budget, s.have)
    ensures w.want(map[c := s]) <= budget
  {
    FitsMeans(w, c, e, budget, s.have);
  }

  // ---- Authors in (prefix, author) order, and their runs ----

  lemma AuthorLessTotal(a: Author, b: Author)
    ensures a == b || AuthorLess(a, b) || AuthorLess(b, a)
    ensures !(AuthorLess(a, b) && AuthorLess(b, a))
  {
  }

  lemma LeastAuthorExists(s: set<Author>)
    requires s != {}
    ensures exists a :: IsLeastAuthor(s, a)
  {
    var a :| a in s;
    if s == {a} {
      assert IsLeastAuthor(s, a);
    } else {
      LeastAuthorExists(s - {a});
      var b :| IsLeastAuthor(s - {a}, b);
      AuthorLessTotal(a, b);
      forall x | x in s && x != a && x != b ensures AuthorLess(b, x) {
        assert x in s - {a};
      }
      if AuthorLess(a, b) {
        assert IsLeastAuthor(s, a);
      } else {
        assert IsLeastAuthor(s, b);
      }
    }
  }

  ghost predicate IsLeastAuthor(s: set<Author>, a: Author) {
    a in s && forall b :: b in s && b != a ==> AuthorLess(a, b)
  }

  method LeastAuthor(s: set<Author>) returns (a: Author)
    requires s != {}
    ensures IsLeastAuthor(s, a)
  {
    LeastAuthorExists(s);
    a :| a in s && forall b :: b in s && b != a ==> AuthorLess(a, b);
  }

  lemma GreatestAuthorExists(s: set<Author>)
    requires s != {}
    ensures exists a :: IsGreatestAuthor(s, a)
  {
    var a :| a in s;
    if s == {a} {
      assert IsGreatestAuthor(s, a);
    } else {
      GreatestAuthorExists(s - {a});
      var b :| IsGreatestAuthor(s - {a}, b);
      AuthorLessTotal(a, b);
      forall x | x in s && x != a && x != b ensures AuthorLess(x, b) {
        assert x in s - {a};
      }
      if AuthorLess(b, a) {
        assert IsGreatestAuthor(s, a);
      } else {
        assert IsGreatestAuthor(s, b);
      }
    }
  }

  ghost predicate IsGreatestAuthor(s: set<Author>, a: Author) {
    a in s && forall b :: b in s && b != a ==> AuthorLess(b, a)
  }

  function GreatestAuthor(s: set<Author>): (a: Author)
    requires s != {}
    ensures IsGreatestAuthor(s, a)
  {
    GreatestAuthorExists(s);
    assert forall a, b :: IsGreatestAuthor(s, a) && IsGreatestAuthor(s, b) ==> a == b;
    var a :| a in s && forall b :: b in s && b != a ==> AuthorLess(b, a);
    a
  }

  datatype Run = Run(prefix: Seq, have: AuthorMap)

  /** The claims under prefixes from `lo` up to, not including, `end`. */
  function Between(m: AuthorMap, lo: int, end: int): (r: AuthorMap)
    ensures forall a :: a in r <==> a in m && lo <= a.prefix < end
    ensures forall a :: a in r ==> r[a] == m[a]
  {
    map a | a in m && lo <= a.prefix < end :: m[a]
  }

  const PAST: int := R.SEQ_MAX + 1

  /** The runs of equal prefix among the authors of `have` that are in `done`. */
  ghost predicate RunsOf(runs: seq<Run>, have: AuthorMap, done: set<Author>) {
    && (forall j, k :: 0 <= j < k < |runs| ==> runs[j].prefix < runs[k].prefix)
    && (forall k, a :: 0 <= k < |runs| ==> (a in runs[k].have <==> a in done && a.prefix == runs[k].prefix))
    && (forall k, a :: 0 <= k < |runs| && a in runs[k].have ==> a in have && runs[k].have[a] == have[a])
    && (forall k :: 0 <= k < |runs| ==> runs[k].have != map[])
    && (forall a :: a in done ==> exists k :: 0 <= k < |runs| && runs[k].prefix == a.prefix)
  }

  lemma GrowRun(runs: seq<Run>, have: AuthorMap, done: set<Author>, a: Author)
    requires RunsOf(runs, have, done) && a in have && runs != [] && runs[|runs| - 1].prefix == a.prefix
    ensures var last := runs[|runs| - 1];
            RunsOf(runs[..|runs| - 1] + [last.(have := last.have[a := have[a]])], have, done + {a})
  {
    var last := runs[|runs| - 1];
    var runs' := runs[..|runs| - 1] + [last.(have := last.have[a := have[a]])];
    Reaches(runs, runs', done, a, |runs| - 1);
  }

  lemma AddRun(runs: seq<Run>, have: AuthorMap, done: set<Author>, a: Author)
    requires RunsOf(runs, have, done) && a in have
    requires runs != [] ==> runs[|runs| - 1].prefix < a.prefix
    ensures RunsOf(runs + [Run(a.prefix, map[a := have[a]])], have, done + {a})
  {
    var runs' := runs + [Run(a.prefix, map[a := have[a]])];
    forall k | 0 <= k < |runs| ensures runs'[k] == runs[k] && runs[k].prefix < a.prefix {
    }
    forall b | b in done ensures b.prefix < a.prefix {
      var k :| 0 <= k < |runs| && runs[k].prefix == b.prefix;
    }
    Reaches(runs, runs', done, a, |runs|);
  }

  /** Lengthened so, the runs still have one for each author done, and one for the new author. */
  lemma Reaches(runs: seq<Run>, runs': seq<Run>, done: set<Author>, a: Author, at: nat)
    requires forall b :: b in done ==> exists k :: 0 <= k < |runs| && runs[k].prefix == b.prefix
    requires |runs| <= |runs'| && forall k :: 0 <= k < |runs| ==> runs'[k].prefix == runs[k].prefix
    requires at < |runs'| && runs'[at].prefix == a.prefix
    ensures forall b :: b in done + {a} ==> exists k :: 0 <= k < |runs'| && runs'[k].prefix == b.prefix
  {
    forall b | b in done ensures exists k :: 0 <= k < |runs'| && runs'[k].prefix == b.prefix {
      var k :| 0 <= k < |runs| && runs[k].prefix == b.prefix;
      assert runs'[k].prefix == b.prefix;
    }
  }

  method CutRuns(have: AuthorMap) returns (runs: seq<Run>)
    ensures RunsOf(runs, have, have.Keys)
  {
    runs := [];
    var todo := have.Keys;
    ghost var done: set<Author> := {};
    hide RunsOf, IsLeastAuthor;
    NoRuns(have);
    while todo != {}
      invariant done + todo == have.Keys && done !! todo
      invariant RunsOf(runs, have, done)
      invariant forall a :: a in todo && runs != [] ==> runs[|runs| - 1].prefix <= a.prefix
    {
      var a := LeastAuthor(todo);
      LeastComesFirst(todo, a);
      if runs != [] && runs[|runs| - 1].prefix == a.prefix {
        GrowRun(runs, have, done, a);
        var last := runs[|runs| - 1];
        runs := runs[..|runs| - 1] + [last.(have := last.have[a := have[a]])];
      } else {
        AddRun(runs, have, done, a);
        runs := runs + [Run(a.prefix, map[a := have[a]])];
      }
      todo := todo - {a};
      done := done + {a};
    }
    assert done == have.Keys;
  }

  lemma NoRuns(have: AuthorMap)
    ensures RunsOf([], have, {})
  {
  }

  lemma LeastComesFirst(s: set<Author>, a: Author)
    requires IsLeastAuthor(s, a)
    ensures a in s && forall b :: b in s ==> a.prefix <= b.prefix
  {
  }

  // ---- Shrinking one run ----

  /** A prefix of the boundaries that ends closed, or all of them. */
  predicate ClosedPrefix(x: seq<Seq>, full: seq<Seq>) {
    |x| <= |full| && x == full[..|x|] && (x == full || |x| % 2 == 0)
  }

  /** What is left after dropping the open tail or the last closed range. */
  function Keep(b: seq<Seq>): (keep: nat)
    ensures b != [] ==> keep < |b|
    ensures keep % 2 == 0
  {
    if |b| % 2 == 1 then |b| - 1 else if |b| >= 2 then |b| - 2 else 0
  }

  lemma KeepCloses(b: seq<Seq>, full: seq<Seq>)
    requires ClosedPrefix(b, full) && b != []
    ensures ClosedPrefix(b[..Keep(b)], full) && b[..Keep(b)] != full
  {
    assert b[..Keep(b)] == full[..Keep(b)];
  }

  lemma PrefixIncreasing(b: R.Ranges, n: nat)
    requires n <= |b|
    ensures R.Increasing(b[..n])
  {
  }

  /** A closed prefix claims a subset. */
  lemma ClosedPrefixClaimsLess(x: R.Ranges, full: R.Ranges, s: Seq)
    requires ClosedPrefix(x, full) && R.Contains(x, s)
    ensures R.Contains(full, s)
  {
    var rest := full[|x|..];
    assert full == x + rest;
    if rest != [] {
      if rest[0] <= s {
        R.FlipAll(x, false, s);
      } else {
        R.FlipPrefix(x, rest, false, s);
      }
    }
  }

  /** `kept` claims no more than `full`, author by author. */
  ghost predicate Shrinks(kept: AuthorMap, full: AuthorMap) {
    forall a :: a in kept ==> a in full && kept[a] != [] && ClosedPrefix(kept[a], full[a])
  }

  predicate Shrank(kept: AuthorMap, full: AuthorMap, a: Author) {
    a in full && (a !in kept || kept[a] != full[a])
  }

  function TailLen(m: AuthorMap): nat {
    if m == map[] then 0 else |m[GreatestAuthor(m.Keys)]|
  }

  /** The run with the end of its last author's ranges dropped. */
  function Cut(run: AuthorMap): AuthorMap
    requires run != map[]
  {
    var a := GreatestAuthor(run.Keys);
    PrefixIncreasing(run[a], Keep(run[a]));
    if Keep(run[a]) == 0 then run - {a} else run[a := run[a][..Keep(run[a])]]
  }

  /** From `lo` on `r` is one unbroken range, and it is all of it. */
  ghost predicate IsLastRange(r: R.Ranges, lo: Seq) {
    && R.Contains(r, lo) && (0 < lo ==> !R.Contains(r, lo - 1))
    && forall s: Seq, t: Seq :: lo <= s <= t && R.Contains(r, t) ==> R.Contains(r, s)
  }

  /** A cut takes the last unbroken range of the last author, and nothing else. */
  lemma CutDropsLastRange(run: AuthorMap)
    requires run != map[] && forall a :: a in run ==> run[a] != []
    ensures var a, cut := GreatestAuthor(run.Keys), Cut(run);
            && (forall x :: x != a ==> (x in cut <==> x in run) && (x in run ==> cut[x] == run[x]))
            && exists lo: Seq :: IsLastRange(run[a], lo)
                 && forall s: Seq :: a in cut && R.Contains(cut[a], s) <==> s < lo && R.Contains(run[a], s)
  {
    hide R.Contains;
    var a := GreatestAuthor(run.Keys);
    var b: R.Ranges := run[a];
    PrefixIncreasing(b, Keep(b));
    var kept: R.Ranges, lo := b[..Keep(b)], b[Keep(b)];
    forall s: Seq ensures R.Contains(b, s) <==> if s < lo then R.Contains(kept, s) else |b| % 2 == 1 || s < b[|b| - 1] {
      KeepIsBelow(b, s);
    }
    forall s: Seq | lo <= s ensures !R.Contains(kept, s) {
      KeptEnds(b, s);
    }
    if 0 < lo {
      KeptEnds(b, lo - 1);
    }
    assert IsLastRange(b, lo);
    NothingIn(kept);
  }

  lemma KeepIsBelow(b: R.Ranges, s: Seq)
    requires b != []
    ensures R.Increasing(b[..Keep(b)])
    ensures var kept: R.Ranges := b[..Keep(b)];
            R.Contains(b, s) <==> if s < b[Keep(b)] then R.Contains(kept, s) else |b| % 2 == 1 || s < b[|b| - 1]
  {
    hide R.Contains;
    PrefixIncreasing(b, Keep(b));
    PrefixIncreasing(b, Keep(b) + 1);
    var kept: R.Ranges := b[..Keep(b)];
    var upTo: R.Ranges := b[..Keep(b) + 1];
    assert upTo == kept + [b[Keep(b)]];
    R.FlipSnoc(kept, b[Keep(b)], s);
    if |b| % 2 == 0 {
      assert b == upTo + [b[|b| - 1]];
      R.FlipSnoc(upTo, b[|b| - 1], s);
    } else {
      assert b == upTo;
    }
  }

  /** Past the last boundary kept, nothing is. */
  lemma KeptEnds(b: R.Ranges, s: Seq)
    requires b != [] && b[Keep(b)] <= s + 1
    ensures R.Increasing(b[..Keep(b)])
    ensures var kept: R.Ranges := b[..Keep(b)]; !R.Contains(kept, s)
  {
    PrefixIncreasing(b, Keep(b));
    R.FlipAll(b[..Keep(b)], false, s);
  }

  lemma NothingIn(r: R.Ranges)
    ensures r == [] ==> forall s: Seq :: !R.Contains(r, s)
  {
  }

  lemma CutShrinks(run: AuthorMap, run0: AuthorMap, touched: set<Author>)
    requires run != map[] && Shrinks(run, run0)
    requires forall a :: a in touched <==> Shrank(run, run0, a)
    ensures Shrinks(Cut(run), run0)
    ensures forall a :: a in touched + {GreatestAuthor(run.Keys)} <==> Shrank(Cut(run), run0, a)
  {
    var a := GreatestAuthor(run.Keys);
    KeepCloses(run[a], run0[a]);
  }

  lemma CutIsSmaller(run: AuthorMap)
    requires run != map[] && forall a :: a in run ==> run[a] != []
    ensures |Cut(run)| < |run| || (|Cut(run)| == |run| && TailLen(Cut(run)) < TailLen(run))
  {
    var a := GreatestAuthor(run.Keys);
    if Keep(run[a]) == 0 {
      assert Cut(run).Keys == run.Keys - {a};
      assert |Cut(run).Keys| == |run.Keys| - 1;
    } else {
      assert Cut(run).Keys == run.Keys;
      assert |Cut(run).Keys| == |run.Keys|;
    }
  }

  function {:tailrecursion false} Cuts(run: AuthorMap, n: nat): AuthorMap {
    if n == 0 then run
    else
      var before := Cuts(run, n - 1);
      if before == map[] then before else Cut(before)
  }

  /** `run` is `run0` cut no more often than needed: whatever it was before each cut did not fit. */
  ghost predicate LeastCut(w: Encoder, c: Channel, e: I.Entry, budget: nat, run0: AuthorMap, run: AuthorMap) {
    exists n: nat :: run == Cuts(run0, n) && NoneFitsBefore(w, c, e, budget, run0, n)
  }

  ghost predicate NoneFitsBefore(w: Encoder, c: Channel, e: I.Entry, budget: nat, run0: AuthorMap, n: nat) {
    forall m: nat :: m < n ==> Cuts(run0, m) != map[] && !Fits(w, c, e, budget, Cuts(run0, m))
  }

  lemma CutNotAtAll(w: Encoder, c: Channel, e: I.Entry, budget: nat, run: AuthorMap)
    ensures LeastCut(w, c, e, budget, run, run)
  {
    assert run == Cuts(run, 0) && NoneFitsBefore(w, c, e, budget, run, 0);
  }

  lemma CutOnceMore(w: Encoder, c: Channel, e: I.Entry, budget: nat, run0: AuthorMap, run: AuthorMap)
    requires LeastCut(w, c, e, budget, run0, run) && run != map[] && !Fits(w, c, e, budget, run)
    ensures LeastCut(w, c, e, budget, run0, Cut(run))
  {
    hide Fits, Cut;
    var n: nat :| run == Cuts(run0, n) && NoneFitsBefore(w, c, e, budget, run0, n);
    assert Cut(run) == Cuts(run0, n + 1) && NoneFitsBefore(w, c, e, budget, run0, n + 1);
  }

  /** Drop ranges from the end until the run fits or nothing is left. */
  method ShrinkRun(w: Encoder, c: Channel, e: I.Entry, budget: nat, run0: AuthorMap)
    returns (run: AuthorMap, touched: set<Author>)
    requires forall a :: a in run0 ==> run0[a] != []
    ensures Shrinks(run, run0)
    ensures forall a :: a in touched <==> Shrank(run, run0, a)
    ensures run == map[] || Fits(w, c, e, budget, run)
    ensures Fits(w, c, e, budget, run0) ==> run == run0 && touched == {}
    ensures !Fits(w, c, e, budget, run0) && run0 != map[] ==> touched != {}
    ensures LeastCut(w, c, e, budget, run0, run)
  {
    run, touched := run0, {};
    hide Fits, Cut, Shrank, TailLen, ClosedPrefix, LeastCut;
    Untouched(run0);
    CutNotAtAll(w, c, e, budget, run0);
    while run != map[] && !Fits(w, c, e, budget, run)
      invariant Shrinks(run, run0)
      invariant forall a :: a in touched <==> Shrank(run, run0, a)
      invariant Fits(w, c, e, budget, run0) ==> run == run0 && touched == {}
      invariant touched == {} ==> run == run0
      invariant LeastCut(w, c, e, budget, run0, run)
      decreases |run|, TailLen(run)
    {
      CutOnceMore(w, c, e, budget, run0, run);
      CutShrinks(run, run0, touched);
      CutIsSmaller(run);
      touched := touched + {GreatestAuthor(run.Keys)};
      run := Cut(run);
    }
  }

  lemma Untouched(run: AuthorMap)
    requires forall a :: a in run ==> run[a] != []
    ensures Shrinks(run, run) && forall a :: !Shrank(run, run, a)
  {
  }

  // ---- Slices ----

  datatype Slice = Slice(first: Seq, have: AuthorMap)

  function EndOf(all: seq<Slice>, k: nat): int {
    if k + 1 < |all| then all[k + 1].first else PAST
  }

  /** `all` is a list of slices by first prefix, each with the claims from there up to the next. */
  ghost predicate Partitions(all: seq<Slice>, claims: AuthorMap, least: int, greatest: int) {
    && (all != [] ==> all[0].first == least)
    && (forall j, k :: 0 <= j < k < |all| ==> all[j].first < all[k].first)
    && (forall k :: 0 <= k < |all| ==> all[k].first <= greatest)
    && (forall k :: 0 <= k < |all| ==> HoldsShare(all, claims, k))
    && (forall a :: a in claims ==> least <= a.prefix <= greatest)
  }

  ghost predicate HoldsShare(all: seq<Slice>, claims: AuthorMap, k: nat)
    requires k < |all|
  {
    all[k].have == Between(claims, all[k].first, EndOf(all, k))
  }

  lemma ShareBefore(claims: AuthorMap, kept: AuthorMap, lo: int, end: int, end': int, p: int)
    requires forall a :: a in kept ==> a.prefix == p
    requires forall a :: a in claims ==> (a.prefix < end <==> a.prefix < end')
    requires end' <= p
    ensures Between(claims, lo, end) == Between(claims + kept, lo, end')
  {
    assert Between(claims, lo, end).Keys == Between(claims + kept, lo, end').Keys;
  }

  lemma ShareAt(claims: AuthorMap, kept: AuthorMap, lo: int, p: int)
    requires forall a :: a in kept ==> a.prefix == p
    requires lo <= p < PAST
    requires forall a :: a in claims ==> a.prefix < p
    ensures Between(claims, lo, PAST) + kept == Between(claims + kept, lo, PAST)
    ensures Between(claims + kept, p, PAST) == kept
  {
    assert (Between(claims, lo, PAST) + kept).Keys == Between(claims + kept, lo, PAST).Keys;
    assert Between(claims + kept, p, PAST).Keys == kept.Keys;
  }

  /** Adding a slice past all others. */
  lemma PartitionsMore(all: seq<Slice>, claims: AuthorMap, least: int, greatest: int, p: Seq, kept: AuthorMap)
    requires Partitions(all, claims, least, greatest) && greatest < p && least <= p && (all == [] ==> least == p)
    requires all == [] ==> claims == map[]
    requires forall a :: a in kept ==> a.prefix == p
    ensures Partitions(all + [Slice(p, kept)], claims + kept, least, p)
  {
    hide Between;
    var all' := all + [Slice(p, kept)];
    forall k | 0 <= k < |all'| ensures HoldsShare(all', claims + kept, k) {
      if k < |all| {
        assert HoldsShare(all, claims, k);
        ShareBefore(claims, kept, all[k].first, EndOf(all, k), EndOf(all', k), p);
      } else {
        ShareAt(claims, kept, p, p);
      }
    }
  }

  /** Growing the last slice. */
  lemma PartitionsGrow(all: seq<Slice>, claims: AuthorMap, least: int, greatest: int, p: Seq, kept: AuthorMap)
    requires Partitions(all, claims, least, greatest) && greatest < p && all != []
    requires forall a :: a in kept ==> a.prefix == p
    ensures var last := all[|all| - 1];
            Partitions(all[..|all| - 1] + [Slice(last.first, last.have + kept)], claims + kept, least, p)
  {
    hide Between;
    var last := all[|all| - 1];
    var all' := all[..|all| - 1] + [Slice(last.first, last.have + kept)];
    assert forall k :: 0 <= k < |all| ==> all'[k].first == all[k].first;
    forall k | 0 <= k < |all| ensures HoldsShare(all', claims + kept, k) {
      assert HoldsShare(all, claims, k);
      if k + 1 < |all| {
        ShareBefore(claims, kept, all[k].first, EndOf(all, k), EndOf(all', k), p);
      } else {
        ShareAt(claims, kept, last.first, p);
      }
    }
    assert least <= all[0].first <= p;
  }

  // ---- The greedy loop over runs ----

  ghost predicate EachFits(w: Encoder, c: Channel, e: I.Entry, budget: nat, all: seq<Slice>) {
    forall k :: 0 <= k < |all| ==> all[k].have == map[] || Fits(w, c, e, budget, all[k].have)
  }

  /** Which authors among those of `full` with prefixes up to `greatest` lost some of their claim. */
  ghost predicate Lost(touched: set<Author>, claims: AuthorMap, full: AuthorMap, greatest: int) {
    forall a :: a in touched <==> Shrank(claims, full, a) && a.prefix <= greatest
  }

  /** Each run has lost something exactly when it does not fit alone. */
  ghost predicate LostWhereTooBig(w: Encoder, c: Channel, e: I.Entry, budget: nat, runs: seq<Run>, i: nat,
                                  touched: set<Author>)
    requires i <= |runs|
  {
    forall j :: 0 <= j < i ==> (Fits(w, c, e, budget, runs[j].have) <==> touched !! runs[j].have.Keys)
  }

  function Greatest(runs: seq<Run>, i: nat): int
    requires i <= |runs|
  {
    if i == 0 then -1 else runs[i - 1].prefix
  }

  function RunAt(have: AuthorMap, p: int): AuthorMap {
    Between(have, p, p + 1)
  }

  /** What is claimed of each run so far is the run cut no more often than needed. */
  ghost predicate LeastCuts(w: Encoder, c: Channel, e: I.Entry, budget: nat, runs: seq<Run>, i: nat, claims: AuthorMap)
    requires i <= |runs|
  {
    forall j :: 0 <= j < i ==> LeastCut(w, c, e, budget, runs[j].have, RunAt(claims, runs[j].prefix))
  }

  lemma LeastCutsMore(w: Encoder, c: Channel, e: I.Entry, budget: nat, runs: seq<Run>, i: nat, claims: AuthorMap,
                      kept: AuthorMap)
    requires i < |runs| && (forall j :: 0 <= j < i ==> runs[j].prefix < runs[i].prefix)
    requires LeastCuts(w, c, e, budget, runs, i, claims)
    requires forall a :: a in kept ==> a.prefix == runs[i].prefix
    requires forall a :: a in claims ==> a.prefix < runs[i].prefix
    requires LeastCut(w, c, e, budget, runs[i].have, kept)
    ensures LeastCuts(w, c, e, budget, runs, i + 1, claims + kept)
  {
    hide LeastCut;
    forall j | 0 <= j < i + 1
      ensures RunAt(claims + kept, runs[j].prefix) == if j < i then RunAt(claims, runs[j].prefix) else kept
    {
      assert RunAt(claims + kept, runs[j].prefix).Keys
          == (if j < i then RunAt(claims, runs[j].prefix) else kept).Keys;
    }
  }

  lemma ClaimsBelow(claims: AuthorMap, all: seq<Slice>, least: int, runs: seq<Run>, i: nat)
    requires i < |runs| && Partitions(all, claims, least, Greatest(runs, i)) && Greatest(runs, i) < runs[i].prefix
    ensures forall a :: a in claims ==> a.prefix < runs[i].prefix
  {
  }

  lemma RunsBefore(runs: seq<Run>, have: AuthorMap, i: nat)
    requires RunsOf(runs, have, have.Keys) && i < |runs|
    ensures forall j :: 0 <= j < i ==> runs[j].prefix < runs[i].prefix
  {
  }

  /** A slice was closed because the next run did not fit behind it. */
  predicate CutAt(w: Encoder, c: Channel, e: I.Entry, budget: nat, have: AuthorMap, p: int) {
    !Fits(w, c, e, budget, have + RunAt(e.have, p))
  }

  ghost predicate GreedyCuts(w: Encoder, c: Channel, e: I.Entry, budget: nat, all: seq<Slice>) {
    forall k :: 0 < k < |all| ==> CutAt(w, c, e, budget, all[k - 1].have, all[k].first)
  }

  ghost predicate Sliced(w: Encoder, c: Channel, e: I.Entry, budget: nat, runs: seq<Run>, i: nat, all: seq<Slice>,
                         claims: AuthorMap, touched: set<Author>)
  {
    && i <= |runs|
    && (i == 0 <==> all == []) && (i == 0 ==> claims == map[])
    && Partitions(all, claims, if runs == [] then 0 else runs[0].prefix, Greatest(runs, i))
    && Shrinks(claims, e.have)
    && EachFits(w, c, e, budget, all)
    && Lost(touched, claims, e.have, Greatest(runs, i))
    && LostWhereTooBig(w, c, e, budget, runs, i, touched)
    && GreedyCuts(w, c, e, budget, all)
    && LeastCuts(w, c, e, budget, runs, i, claims)
    && (!Fits(w, c, e, budget, map[]) ==> |all| == i && forall k :: 0 <= k < i ==> all[k].first == runs[k].prefix)
  }

  lemma RunsBelow(runs: seq<Run>, have: AuthorMap, i: nat, a: Author)
    requires RunsOf(runs, have, have.Keys) && i < |runs| && a in have
    ensures a.prefix <= runs[i].prefix <==> a.prefix <= Greatest(runs, i) || a in runs[i].have
    ensures a in runs[i].have ==> a.prefix == runs[i].prefix && runs[i].have[a] == have[a]
    ensures Greatest(runs, i) < runs[i].prefix
    ensures runs[0].prefix <= runs[i].prefix
  {
    var k :| 0 <= k < |runs| && runs[k].prefix == a.prefix;
  }

  lemma LostMore(claims: AuthorMap, runs: seq<Run>, full: AuthorMap, i: nat, kept: AuthorMap, touched: set<Author>,
                 more: set<Author>)
    requires RunsOf(runs, full, full.Keys) && i < |runs|
    requires Lost(touched, claims, full, Greatest(runs, i))
    requires forall a :: a in claims ==> a in full && a.prefix <= Greatest(runs, i)
    requires kept.Keys <= runs[i].have.Keys
    requires forall a :: a in more <==> Shrank(kept, runs[i].have, a)
    ensures Lost(touched + more, claims + kept, full, runs[i].prefix)
    ensures touched !! more && touched !! runs[i].have.Keys
  {
    hide RunsOf;
    forall a | a in full
      ensures a in touched + more <==> Shrank(claims + kept, full, a) && a.prefix <= runs[i].prefix
      ensures a in runs[i].have ==> a !in touched
      ensures !(a in touched && a in more)
    {
      RunsBelow(runs, full, i, a);
    }
    forall a | a in more ensures a in full {
      InRun(runs, full, i, a);
    }
    forall a | a in runs[i].have ensures a in full {
      InRun(runs, full, i, a);
    }
  }

  lemma InRun(runs: seq<Run>, full: AuthorMap, i: nat, a: Author)
    requires RunsOf(runs, full, full.Keys) && i < |runs| && a in runs[i].have
    ensures a in full && a.prefix == runs[i].prefix && runs[i].have[a] == full[a]
  {
  }

  lemma ShrinksMore(claims: AuthorMap, kept: AuthorMap, runs: seq<Run>, full: AuthorMap, i: nat)
    requires RunsOf(runs, full, full.Keys) && i < |runs|
    requires Shrinks(claims, full) && Shrinks(kept, runs[i].have)
    ensures Shrinks(claims + kept, full)
    ensures forall a :: a in kept ==> a in full && a.prefix == runs[i].prefix
  {
    hide RunsOf, ClosedPrefix;
    forall a | a in kept ensures a in full && a.prefix == runs[i].prefix && kept[a] != [] && ClosedPrefix(kept[a], full[a]) {
      InRun(runs, full, i, a);
    }
  }

  lemma FitsSmaller(w: Encoder, c: Channel, e: I.Entry, budget: nat, small: AuthorMap, big: AuthorMap)
    requires Additive(w) && Claims(e, big) && SubMap(small, big) && Fits(w, c, e, budget, big)
    ensures Fits(w, c, e, budget, small)
  {
    FitsMeans(w, c, e, budget, big);
    FitsMeans(w, c, e, budget, small);
    assert w.have(small) <= w.have(big);
  }

  lemma ShrinksStayInScope(claims: AuthorMap, e: I.Entry)
    requires Shrinks(claims, e.have)
    ensures Claims(e, claims)
  {
  }

  /** The run joins the current slice. */
  lemma StepJoin(w: Encoder, c: Channel, e: I.Entry, budget: nat, runs: seq<Run>, i: nat, all: seq<Slice>,
                 claims: AuthorMap, touched: set<Author>)
    requires Additive(w) && RunsOf(runs, e.have, e.have.Keys) && i < |runs|
    requires Sliced(w, c, e, budget, runs, i, all, claims, touched) && all != []
    requires Fits(w, c, e, budget, all[|all| - 1].have + runs[i].have)
    ensures var last := all[|all| - 1];
            Sliced(w, c, e, budget, runs, i + 1, all[..|all| - 1] + [Slice(last.first, last.have + runs[i].have)],
                   claims + runs[i].have, touched)
  {
    hide RunsOf, Fits, HoldsShare, Lost, EachFits, ClosedPrefix, LostWhereTooBig, CutAt;
    var last := all[|all| - 1];
    var run := runs[i].have;
    GreedyGrows(w, c, e, budget, all, Slice(last.first, last.have + run));
    hide GreedyCuts, LeastCuts, LeastCut;
    RunsBefore(runs, e.have, i);
    CutNotAtAll(w, c, e, budget, run);
    RunIsHeld(runs, e, i);
    RunsAscend(runs, e.have, i);
    JoinFits(w, c, e, budget, all, claims, run);
    PartitionsGrow(all, claims, runs[0].prefix, Greatest(runs, i), runs[i].prefix, run);
    ShrinksMore(claims, run, runs, e.have, i);
    ClaimsBelow(claims, all, runs[0].prefix, runs, i);
    LeastCutsMore(w, c, e, budget, runs, i, claims, run);
    LostMore(claims, runs, e.have, i, run, touched, {});
    assert touched + {} == touched;
    TooBigMore(w, c, e, budget, runs, i, touched, {}, e.have);
  }

  lemma RunIsHeld(runs: seq<Run>, e: I.Entry, i: nat)
    requires RunsOf(runs, e.have, e.have.Keys) && i < |runs|
    ensures Shrinks(runs[i].have, runs[i].have) && Claims(e, runs[i].have) && runs[i].have != map[]
    ensures forall a :: a in runs[i].have ==> a in e.have && a.prefix == runs[i].prefix
    ensures forall a :: !Shrank(runs[i].have, runs[i].have, a)
  {
    forall a | a in runs[i].have ensures a in e.have && a.prefix == runs[i].prefix && runs[i].have[a] != [] {
      InRun(runs, e.have, i, a);
      assert e.have[a] != [];
    }
  }

  lemma RunsAscend(runs: seq<Run>, have: AuthorMap, i: nat)
    requires RunsOf(runs, have, have.Keys) && i < |runs|
    ensures Greatest(runs, i) < runs[i].prefix && runs[0].prefix <= runs[i].prefix
  {
  }

  lemma JoinFits(w: Encoder, c: Channel, e: I.Entry, budget: nat, all: seq<Slice>, claims: AuthorMap, run: AuthorMap)
    requires Additive(w) && all != [] && EachFits(w, c, e, budget, all)
    requires Claims(e, run) && Shrinks(claims, e.have) && HoldsShare(all, claims, |all| - 1)
    requires Fits(w, c, e, budget, all[|all| - 1].have + run)
    ensures Fits(w, c, e, budget, run) && Fits(w, c, e, budget, map[])
    ensures var last := all[|all| - 1];
            EachFits(w, c, e, budget, all[..|all| - 1] + [Slice(last.first, last.have + run)])
  {
    hide Fits;
    var last := all[|all| - 1];
    ShrinksStayInScope(claims, e);
    FitsSmaller(w, c, e, budget, run, last.have + run);
    FitsSmaller(w, c, e, budget, map[], last.have + run);
  }

  lemma TooBigMore(w: Encoder, c: Channel, e: I.Entry, budget: nat, runs: seq<Run>, i: nat, touched: set<Author>,
                   more: set<Author>, full: AuthorMap)
    requires RunsOf(runs, full, full.Keys) && i < |runs|
    requires LostWhereTooBig(w, c, e, budget, runs, i, touched)
    requires touched !! runs[i].have.Keys && more <= runs[i].have.Keys
    requires Fits(w, c, e, budget, runs[i].have) <==> more == {}
    ensures LostWhereTooBig(w, c, e, budget, runs, i + 1, touched + more)
  {
    hide Fits;
    forall j | 0 <= j < i ensures runs[j].have.Keys !! more {
      assert runs[j].prefix < runs[i].prefix;
      RunsApart(runs, full, j, i);
    }
    if more != {} {
      var a :| a in more;
      assert a in runs[i].have.Keys && a in touched + more;
    }
  }

  lemma RunsApart(runs: seq<Run>, full: AuthorMap, j: nat, i: nat)
    requires RunsOf(runs, full, full.Keys) && j < i < |runs|
    ensures runs[j].have.Keys !! runs[i].have.Keys
  {
    assert runs[j].prefix < runs[i].prefix;
    forall a | a in runs[j].have ensures a !in runs[i].have {
      InRun(runs, full, j, a);
    }
  }

  /** The run starts a slice of its own, shrunk if need be. */
  lemma StepCut(w: Encoder, c: Channel, e: I.Entry, budget: nat, runs: seq<Run>, i: nat, all: seq<Slice>,
                claims: AuthorMap, touched: set<Author>, kept: AuthorMap, more: set<Author>)
    requires Additive(w) && RunsOf(runs, e.have, e.have.Keys) && i < |runs|
    requires Sliced(w, c, e, budget, runs, i, all, claims, touched)
    requires Shrinks(kept, runs[i].have) && (kept == map[] || Fits(w, c, e, budget, kept))
    requires forall a :: a in more <==> Shrank(kept, runs[i].have, a)
    requires Fits(w, c, e, budget, runs[i].have) <==> more == {}
    requires all != [] ==> !Fits(w, c, e, budget, all[|all| - 1].have + runs[i].have)
    requires LeastCut(w, c, e, budget, runs[i].have, kept)
    ensures Sliced(w, c, e, budget, runs, i + 1, all + [Slice(runs[i].prefix, kept)], claims + kept, touched + more)
  {
    hide RunsOf, Fits, HoldsShare, Lost, ClosedPrefix, LostWhereTooBig, Shrank;
    RunIsRunAt(runs, e.have, i);
    GreedyMore(w, c, e, budget, all, Slice(runs[i].prefix, kept));
    hide GreedyCuts, LeastCuts, LeastCut;
    RunsBefore(runs, e.have, i);
    RunsAscend(runs, e.have, i);
    ShrinksMore(claims, kept, runs, e.have, i);
    ClaimsBelow(claims, all, runs[0].prefix, runs, i);
    LeastCutsMore(w, c, e, budget, runs, i, claims, kept);
    PartitionsMore(all, claims, runs[0].prefix, Greatest(runs, i), runs[i].prefix, kept);
    LostMore(claims, runs, e.have, i, kept, touched, more);
    MoreInRun(kept, runs[i].have, more);
    TooBigMore(w, c, e, budget, runs, i, touched, more, e.have);
  }

  lemma GreedyMore(w: Encoder, c: Channel, e: I.Entry, budget: nat, all: seq<Slice>, s: Slice)
    requires GreedyCuts(w, c, e, budget, all)
    requires all != [] ==> CutAt(w, c, e, budget, all[|all| - 1].have, s.first)
    ensures GreedyCuts(w, c, e, budget, all + [s])
  {
    hide CutAt;
  }

  lemma GreedyGrows(w: Encoder, c: Channel, e: I.Entry, budget: nat, all: seq<Slice>, s: Slice)
    requires GreedyCuts(w, c, e, budget, all) && all != [] && s.first == all[|all| - 1].first
    ensures GreedyCuts(w, c, e, budget, all[..|all| - 1] + [s])
  {
    hide CutAt;
    var all' := all[..|all| - 1] + [s];
    forall k | 0 < k < |all'| ensures CutAt(w, c, e, budget, all'[k - 1].have, all'[k].first) {
      assert CutAt(w, c, e, budget, all[k - 1].have, all[k].first);
    }
  }

  lemma MoreInRun(kept: AuthorMap, run: AuthorMap, more: set<Author>)
    requires forall a :: a in more <==> Shrank(kept, run, a)
    ensures more <= run.Keys
  {
  }

  // ---- The slices ----

  /** The scopes follow each other without gap or overlap from `lo` to `hi`. */
  ghost predicate Tiles(out: seq<I.Entry>, lo: Seq, hi: Seq) {
    && out != [] && out[0].lo == lo && out[|out| - 1].hi == hi
    && forall k :: 0 < k < |out| ==> Touches(out[k - 1], out[k])
  }

  predicate Touches(x: I.Entry, y: I.Entry) {
    y.lo == x.hi + 1
  }

  /** Each slice claims exactly the authors in its own scope. */
  ghost predicate Shares(out: seq<I.Entry>, claims: AuthorMap) {
    forall k :: 0 <= k < |out| ==> out[k].have == Between(claims, out[k].lo, out[k].hi + 1)
  }

  ghost function Shrunken(claims: AuthorMap, full: AuthorMap): (r: set<Author>)
    ensures forall a :: a in r <==> Shrank(claims, full, a)
  {
    set a | a in full && Shrank(claims, full, a)
  }

  ghost predicate RunsFit(w: Encoder, c: Channel, e: I.Entry, budget: nat) {
    forall a :: a in e.have ==> Fits(w, c, e, budget, RunAt(e.have, a.prefix))
  }

  // ---- Scoping the slices ----

  function LoOf(e: I.Entry, all: seq<Slice>, k: nat): int
    requires k < |all|
  {
    if k == 0 then e.lo else all[k].first
  }

  function HiOf(e: I.Entry, all: seq<Slice>, k: nat): int
    requires k < |all|
  {
    if k + 1 == |all| then e.hi else all[k + 1].first - 1
  }

  ghost predicate Scopable(e: I.Entry, all: seq<Slice>, claims: AuthorMap) {
    && all != [] && Shrinks(claims, e.have)
    && Partitions(all, claims, all[0].first, e.hi)
    && e.lo <= all[0].first
  }

  /** Every slice's scope is well formed and holds the slice's authors. */
  lemma ScopeValid(e: I.Entry, all: seq<Slice>, claims: AuthorMap, k: nat)
    requires Scopable(e, all, claims) && k < |all|
    ensures e.lo <= LoOf(e, all, k) <= HiOf(e, all, k) <= e.hi
    ensures I.NewEntry(LoOf(e, all, k), HiOf(e, all, k), all[k].have)
         == R.Some(I.RawEntry(LoOf(e, all, k), HiOf(e, all, k), all[k].have))
    ensures all[k].have == Between(claims, LoOf(e, all, k), HiOf(e, all, k) + 1)
    ensures Claims(e, all[k].have)
  {
    hide ClosedPrefix;
    assert HoldsShare(all, claims, k);
    assert all[0].first <= all[k].first;
    ShrinksStayInScope(claims, e);
    assert all[k].have.Keys == Between(claims, LoOf(e, all, k), HiOf(e, all, k) + 1).Keys;
    assert all[k].have == map a | a in all[k].have && all[k].have[a] != [] :: all[k].have[a];
  }

  method ScopeSlices(e: I.Entry, all: seq<Slice>, ghost claims: AuthorMap) returns (out: seq<I.Entry>)
    requires Scopable(e, all, claims)
    ensures |out| == |all| && Tiles(out, e.lo, e.hi) && Shares(out, claims)
    ensures forall k :: 0 <= k < |out| ==> out[k].lo == LoOf(e, all, k) && out[k].hi == HiOf(e, all, k)
    ensures forall k :: 0 <= k < |out| ==> out[k].have == all[k].have
  {
    out := [];
    hide Scopable, Between, I.NewEntry;
    for k := 0 to |all|
      invariant |out| == k
      invariant forall j :: 0 <= j < k ==> out[j].lo == LoOf(e, all, j) && out[j].hi == HiOf(e, all, j)
      invariant forall j :: 0 <= j < k ==> out[j].have == all[j].have
      invariant forall j :: 0 <= j < k ==> out[j].have == Between(claims, out[j].lo, out[j].hi + 1)
    {
      ScopeValid(e, all, claims, k);
      var lo: Seq := if k == 0 then e.lo else all[k].first;
      var hi: Seq := if k + 1 == |all| then e.hi else all[k + 1].first - 1;
      var entry := I.NewEntry(lo, hi, all[k].have);
      out := out + [entry.value];
    }
    NonEmpty(e, all, claims);
    forall k | 0 < k < |out| ensures Touches(out[k - 1], out[k]) {
    }
  }

  lemma NonEmpty(e: I.Entry, all: seq<Slice>, claims: AuthorMap)
    requires Scopable(e, all, claims)
    ensures all != []
  {
  }

  // ---- What the loop leaves behind ----

  /** A tile: the scope a prefix of `e` would get if every run were its own slice. */
  ghost predicate IsTile(e: I.Entry, p: Seq, lo: Seq, hi: Seq) {
    && (exists a :: a in e.have && a.prefix == p)
    && lo == (if exists a :: a in e.have && a.prefix < p then p else e.lo)
    && (if exists a :: a in e.have && p < a.prefix then IsNext(e, p, hi + 1) else hi == e.hi)
  }

  ghost predicate IsNext(e: I.RawEntry, p: Seq, q: int) {
    && p < q
    && (exists a :: a in e.have && a.prefix == q)
    && (forall a :: a in e.have ==> a.prefix <= p || q <= a.prefix)
  }

  /** The exact condition under which every slice fits. With an empty have nothing is sent; when a pure want
      with the widest bounds does not fit, every have is shrunk away, and the empty slices are sent all the
      same, so their own bounds must be narrow enough. */
  ghost predicate SlicesFit(w: Encoder, c: Channel, e: I.Entry, budget: nat) {
    || e.have == map[]
    || Fits(w, c, e, budget, map[])
    || forall p, lo, hi :: IsTile(e, p, lo, hi) ==> PureFitsIn(w, c, budget, lo, hi)
  }

  predicate PureFitsIn(w: Encoder, c: Channel, budget: nat, lo: Seq, hi: Seq) {
    w.base(c) + VarintLen(lo) + VarintLen(hi) + w.have(map[]) <= budget
  }

  ghost predicate TilesOf(e: I.Entry, runs: seq<Run>, all: seq<Slice>) {
    |all| == |runs| && forall k :: 0 <= k < |runs| ==> all[k] == Slice(runs[k].prefix, map[])
  }

  lemma RunHasAuthor(runs: seq<Run>, have: AuthorMap, k: nat)
    requires RunsOf(runs, have, have.Keys) && k < |runs|
    ensures exists a :: a in have && a.prefix == runs[k].prefix
    ensures forall a :: a in have ==> exists j :: 0 <= j < |runs| && runs[j].prefix == a.prefix
  {
    assert runs[k].have != map[];
    var a :| a in runs[k].have;
    InRun(runs, have, k, a);
  }

  lemma TileOfSlice(e: I.Entry, runs: seq<Run>, all: seq<Slice>, k: nat, lo: Seq, hi: Seq)
    requires RunsOf(runs, e.have, e.have.Keys) && TilesOf(e, runs, all) && k < |all|
    requires lo == LoOf(e, all, k) && hi == HiOf(e, all, k)
    ensures IsTile(e, runs[k].prefix, lo, hi)
  {
    hide RunsOf, IsNext;
    RunHasAuthor(runs, e.have, k);
    LowerBound(e, runs, k);
    UpperBound(e, runs, k);
  }

  lemma LowerBound(e: I.Entry, runs: seq<Run>, k: nat)
    requires RunsOf(runs, e.have, e.have.Keys) && k < |runs|
    ensures (exists a :: a in e.have && a.prefix < runs[k].prefix) <==> k > 0
  {
    if k == 0 {
      hide RunsOf;
      forall a | a in e.have ensures runs[k].prefix <= a.prefix {
        RunAbove(runs, e.have, 0, a);
      }
    } else {
      RunHasAuthor(runs, e.have, 0);
      assert runs[0].prefix < runs[k].prefix;
    }
  }

  lemma UpperBound(e: I.Entry, runs: seq<Run>, k: nat)
    requires RunsOf(runs, e.have, e.have.Keys) && k < |runs|
    ensures (exists a :: a in e.have && runs[k].prefix < a.prefix) <==> k + 1 < |runs|
    ensures k + 1 < |runs| ==> IsNext(e, runs[k].prefix, runs[k + 1].prefix)
  {
    assert k + 1 < |runs| ==> runs[k].prefix < runs[k + 1].prefix;
    hide RunsOf;
    if k + 1 < |runs| {
      RunHasAuthor(runs, e.have, k + 1);
      forall a | a in e.have ensures a.prefix <= runs[k].prefix || runs[k + 1].prefix <= a.prefix {
        RunAbove(runs, e.have, k + 1, a);
      }
    } else {
      forall a | a in e.have ensures a.prefix <= runs[k].prefix {
        RunAbove(runs, e.have, k, a);
      }
    }
  }

  /** An author is in an earlier run or not below this one, and not past the last. */
  lemma RunAbove(runs: seq<Run>, have: AuthorMap, k: nat, a: Author)
    requires RunsOf(runs, have, have.Keys) && k < |runs| && a in have
    ensures k == 0 ==> runs[0].prefix <= a.prefix
    ensures k > 0 ==> a.prefix <= runs[k - 1].prefix || runs[k].prefix <= a.prefix
    ensures k + 1 == |runs| ==> a.prefix <= runs[k].prefix
  {
    var j :| 0 <= j < |runs| && runs[j].prefix == a.prefix;
  }

  lemma SliceOfTile(e: I.Entry, runs: seq<Run>, all: seq<Slice>, p: Seq, lo: Seq, hi: Seq)
    requires RunsOf(runs, e.have, e.have.Keys) && TilesOf(e, runs, all) && IsTile(e, p, lo, hi)
    ensures exists k :: 0 <= k < |all| && lo == LoOf(e, all, k) && hi == HiOf(e, all, k)
  {
    var k := RunOfPrefix(e, runs, p);
    hide RunsOf, IsTile;
    TileBounds(e, runs, all, k);
    var lo', hi' := LoOf(e, all, k), HiOf(e, all, k);
    TileOfSlice(e, runs, all, k, lo', hi');
    TileUnique(e, p, lo, hi, lo', hi');
  }

  lemma RunOfPrefix(e: I.Entry, runs: seq<Run>, p: Seq) returns (k: nat)
    requires RunsOf(runs, e.have, e.have.Keys) && exists a :: a in e.have && a.prefix == p
    ensures k < |runs| && runs[k].prefix == p
  {
    var a :| a in e.have && a.prefix == p;
    k :| 0 <= k < |runs| && runs[k].prefix == a.prefix;
  }

  lemma TileBounds(e: I.Entry, runs: seq<Run>, all: seq<Slice>, k: nat)
    requires RunsOf(runs, e.have, e.have.Keys) && TilesOf(e, runs, all) && k < |all|
    ensures 0 <= LoOf(e, all, k) <= R.SEQ_MAX && 0 <= HiOf(e, all, k) <= R.SEQ_MAX
  {
    if k + 1 < |runs| {
      assert runs[k].prefix < runs[k + 1].prefix;
    }
  }

  lemma TileUnique(e: I.Entry, p: Seq, lo: Seq, hi: Seq, lo': Seq, hi': Seq)
    requires IsTile(e, p, lo, hi) && IsTile(e, p, lo', hi')
    ensures lo == lo' && hi == hi'
  {
    if exists a :: a in e.have && p < a.prefix {
      var a :| a in e.have && a.prefix == hi + 1;
      var b :| b in e.have && b.prefix == hi' + 1;
    }
  }

  lemma AfterLoop(w: Encoder, c: Channel, e: I.Entry, budget: nat, runs: seq<Run>, all: seq<Slice>, claims: AuthorMap,
                  touched: set<Author>)
    requires Additive(w) && RunsOf(runs, e.have, e.have.Keys)
    requires Sliced(w, c, e, budget, runs, |runs|, all, claims, touched)
    ensures all == [] <==> e.have == map[]
    ensures all != [] ==> Scopable(e, all, claims)
    ensures touched == Shrunken(claims, e.have)
    ensures Shrinks(claims, e.have)
  {
    hide Fits, HoldsShare, ClosedPrefix, LostWhereTooBig, EachFits, Shrank, RunsOf;
    NoRunsNoAuthors(runs, e);
    SlicesInScope(runs, e);
    forall a | a in e.have ensures a.prefix <= Greatest(runs, |runs|) {
      RunAboveAll(runs, e.have, a);
    }
    ShrankIsHeld(claims, e.have);
  }

  lemma NoRunsNoAuthors(runs: seq<Run>, e: I.Entry)
    requires RunsOf(runs, e.have, e.have.Keys)
    ensures runs == [] <==> e.have == map[]
  {
    if runs != [] {
      RunHasAuthor(runs, e.have, 0);
    }
    if e.have != map[] {
      var a :| a in e.have;
      assert exists k :: 0 <= k < |runs| && runs[k].prefix == a.prefix;
    }
  }

  lemma SlicesInScope(runs: seq<Run>, e: I.Entry)
    requires RunsOf(runs, e.have, e.have.Keys)
    ensures runs != [] ==> e.lo <= runs[0].prefix && Greatest(runs, |runs|) <= e.hi
  {
    if runs != [] {
      RunHasAuthor(runs, e.have, 0);
      RunHasAuthor(runs, e.have, |runs| - 1);
    }
  }

  lemma ShrankIsHeld(claims: AuthorMap, full: AuthorMap)
    ensures forall a :: Shrank(claims, full, a) ==> a in full
  {
  }

  lemma RunAboveAll(runs: seq<Run>, have: AuthorMap, a: Author)
    requires RunsOf(runs, have, have.Keys) && a in have
    ensures runs != [] && a.prefix <= Greatest(runs, |runs|)
  {
    assert exists k :: 0 <= k < |runs| && runs[k].prefix == a.prefix;
    RunAbove(runs, have, |runs| - 1, a);
  }

  lemma RunIsRunAt(runs: seq<Run>, have: AuthorMap, k: nat)
    requires RunsOf(runs, have, have.Keys) && k < |runs|
    ensures runs[k].have == RunAt(have, runs[k].prefix)
  {
    assert runs[k].have.Keys == RunAt(have, runs[k].prefix).Keys;
  }

  /** Nothing was lost exactly when every run fits by itself. */
  lemma LostNothing(w: Encoder, c: Channel, e: I.Entry, budget: nat, runs: seq<Run>, touched: set<Author>)
    requires RunsOf(runs, e.have, e.have.Keys) && touched <= e.have.Keys
    requires LostWhereTooBig(w, c, e, budget, runs, |runs|, touched)
    ensures touched == {} <==> RunsFit(w, c, e, budget)
  {
    hide Fits, RunAt;
    if touched == {} {
      forall a | a in e.have ensures Fits(w, c, e, budget, RunAt(e.have, a.prefix)) {
        var k := RunOfPrefix(e, runs, a.prefix);
        RunIsRunAt(runs, e.have, k);
      }
    } else {
      var a :| a in touched;
      assert a in e.have;
      var k := RunOfPrefix(e, runs, a.prefix);
      RunIsRunAt(runs, e.have, k);
      assert a in runs[k].have;
    }
  }

  lemma BudgetHolds(w: Encoder, c: Channel, e: I.Entry, budget: nat, runs: seq<Run>, all: seq<Slice>,
                    claims: AuthorMap, out: seq<I.Entry>)
    requires Additive(w) && RunsOf(runs, e.have, e.have.Keys) && Scopable(e, all, claims)
    requires EachFits(w, c, e, budget, all) && e.have != map[]
    requires !Fits(w, c, e, budget, map[]) ==> |all| == |runs| && forall k :: 0 <= k < |all| ==> all[k].first == runs[k].prefix
    requires |out| == |all|
    requires forall k :: 0 <= k < |out| ==>
               out[k].lo == LoOf(e, all, k) && out[k].hi == HiOf(e, all, k) && out[k].have == all[k].have
    ensures (forall k :: 0 <= k < |out| ==> w.want(map[c := out[k]]) <= budget) <==> SlicesFit(w, c, e, budget)
  {
    hide Fits, RunsOf, Additive, IsTile, Scopable, VarintLen;
    if Fits(w, c, e, budget, map[]) {
      forall k | 0 <= k < |out| ensures w.want(map[c := out[k]]) <= budget {
        ScopeValid(e, all, claims, k);
        SliceFits(w, c, e, budget, out[k]);
      }
    } else {
      forall k | 0 <= k < |out|
        ensures all[k] == Slice(runs[k].prefix, map[])
        ensures w.want(map[c := out[k]]) <= budget <==> PureFitsIn(w, c, budget, out[k].lo, out[k].hi)
      {
        ScopeValid(e, all, claims, k);
        if all[k].have != map[] {
          FitsSmaller(w, c, e, budget, map[], all[k].have);
        }
        PureLen(w, c, out[k]);
      }
      TileBudget(w, c, e, budget, runs, all, out);
    }
  }

  lemma PureLen(w: Encoder, c: Channel, e: I.Entry)
    requires Additive(w)
    ensures w.want(map[c := e]) == w.base(c) + VarintLen(e.lo) + VarintLen(e.hi) + w.have(e.have)
  {
  }

  lemma TileBudget(w: Encoder, c: Channel, e: I.Entry, budget: nat, runs: seq<Run>, all: seq<Slice>, out: seq<I.Entry>)
    requires RunsOf(runs, e.have, e.have.Keys) && TilesOf(e, runs, all) && |out| == |all|
    requires forall k :: 0 <= k < |out| ==> out[k].lo == LoOf(e, all, k) && out[k].hi == HiOf(e, all, k)
    ensures (forall k :: 0 <= k < |out| ==> PureFitsIn(w, c, budget, out[k].lo, out[k].hi))
            <==> forall p, lo, hi :: IsTile(e, p, lo, hi) ==> PureFitsIn(w, c, budget, lo, hi)
  {
    hide RunsOf, IsTile, PureFitsIn;
    if forall k :: 0 <= k < |out| ==> PureFitsIn(w, c, budget, out[k].lo, out[k].hi) {
      forall p, lo, hi | IsTile(e, p, lo, hi) ensures PureFitsIn(w, c, budget, lo, hi) {
        SliceOfTile(e, runs, all, p, lo, hi);
        var k :| 0 <= k < |all| && lo == LoOf(e, all, k) && hi == HiOf(e, all, k);
        assert PureFitsIn(w, c, budget, out[k].lo, out[k].hi);
      }
    }
    if forall p, lo, hi :: IsTile(e, p, lo, hi) ==> PureFitsIn(w, c, budget, lo, hi) {
      forall k | 0 <= k < |out| ensures PureFitsIn(w, c, budget, out[k].lo, out[k].hi) {
        TileOfSlice(e, runs, all, k, out[k].lo, out[k].hi);
        var p: Seq, lo: Seq, hi: Seq := runs[k].prefix, out[k].lo, out[k].hi;
        assert IsTile(e, p, lo, hi);
        assert PureFitsIn(w, c, budget, lo, hi);
      }
    }
  }

  function Pending(first: R.Option<Seq>, cur: AuthorMap): seq<Slice> {
    if first.Some? then [Slice(first.value, cur)] else []
  }

  /** What slicing an entry yields: nothing when it is pure and does not fit; otherwise scopes that tile the
      entry's own, each with the claims in it, each claim a closed prefix of the original. */
  ghost predicate SlicesOf(w: Encoder, c: Channel, e: I.Entry, budget: nat, out: seq<I.Entry>, claims: AuthorMap) {
    && (out == [] <==> e.have == map[] && !Fits(w, c, e, budget, map[]))
    && (out != [] ==> Tiles(out, e.lo, e.hi) && Shares(out, claims))
    && Shrinks(claims, e.have)
  }

  lemma NoSlices(w: Encoder, c: Channel, e: I.Entry, budget: nat, runs: seq<Run>)
    requires RunsOf(runs, e.have, e.have.Keys)
    ensures Sliced(w, c, e, budget, runs, 0, [], map[], {})
  {
    if runs != [] {
      RunHasAuthor(runs, e.have, 0);
    }
  }

  /** `slice_entry`. The truncation count is exact; every slice fits exactly when `SlicesFit`. */
  method SliceEntry(w: Encoder, c: Channel, e: I.Entry, budget: nat)
    returns (out: seq<I.Entry>, truncated: nat, ghost claims: AuthorMap)
    requires Additive(w)
    ensures SlicesOf(w, c, e, budget, out, claims)
    ensures truncated == |Shrunken(claims, e.have)| + if out == [] then 1 else 0
    ensures truncated == 0 <==> out != [] && RunsFit(w, c, e, budget)
    ensures (forall k :: 0 <= k < |out| ==> w.want(map[c := out[k]]) <= budget) <==> SlicesFit(w, c, e, budget)
    ensures forall k :: 0 < k < |out| ==> CutAt(w, c, e, budget, out[k - 1].have, out[k].lo)
    ensures forall a :: a in e.have ==> LeastCut(w, c, e, budget, RunAt(e.have, a.prefix), RunAt(claims, a.prefix))
  {
    hide LeastCut, LeastCuts, RunAt, CutAt, RunsOf, Sliced, Fits, Additive, Shrinks, Shrank, Shares, Tiles, Scopable,
         RunsFit, SlicesFit, LostWhereTooBig, EachFits;
    var runs := CutRuns(e.have);
    var slices: seq<Slice>, cur: AuthorMap, curFirst: R.Option<Seq> := [], map[], R.None;
    truncated := 0;
    ghost var all: seq<Slice>, touchedAll: set<Author> := [], {};
    claims := map[];
    NoSlices(w, c, e, budget, runs);
    for i := 0 to |runs|
      invariant Sliced(w, c, e, budget, runs, i, all, claims, touchedAll)
      invariant all == slices + Pending(curFirst, cur) && truncated == |touchedAll|
      invariant curFirst.None? ==> slices == [] && cur == map[]
    {
      var p, run := runs[i].prefix, runs[i].have;
      var trial := cur + run;
      assert all != [] ==> all[|all| - 1] == Slice(curFirst.value, cur);
      if Fits(w, c, e, budget, trial) {
        if curFirst.None? {
          StartsWhole(w, c, e, budget, runs, i, claims, touchedAll);
          curFirst := R.Some(p);
          all := [Slice(p, run)];
        } else {
          assert all[|all| - 1] == Slice(curFirst.value, cur);
          StepJoin(w, c, e, budget, runs, i, all, claims, touchedAll);
          all := slices + [Slice(curFirst.value, cur + run)];
        }
        cur := trial;
        claims := claims + run;
        continue;
      }
      if curFirst.Some? {
        slices := slices + [Slice(curFirst.value, cur)];
        cur := map[];
      }
      RunNotEmpty(runs, e, i);
      assert all != [] ==> all[|all| - 1].have + run == trial;
      var kept, touched := ShrinkRun(w, c, e, budget, run);
      StepCut(w, c, e, budget, runs, i, all, claims, touchedAll, kept, touched);
      ApartSize(w, c, e, budget, runs, i, all, claims, touchedAll, kept, touched);
      truncated := truncated + |touched|;
      all := all + [Slice(p, kept)];
      claims := claims + kept;
      touchedAll := touchedAll + touched;
      cur := kept;
      curFirst := R.Some(p);
    }
    slices := slices + Pending(curFirst, cur);
    AfterLoop(w, c, e, budget, runs, slices, claims, touchedAll);
    SlicedParts(w, c, e, budget, runs, slices, claims, touchedAll);
    if slices == [] {
      NothingHeld(w, c, e, budget, claims);
      if !Fits(w, c, e, budget, map[]) {
        truncated := truncated + 1;
        return [], truncated, claims;
      }
      slices := [Slice(e.lo, map[])];
      out := ScopeSlices(e, slices, claims);
      PureFits(w, c, e, budget, out[0]);
    } else {
      out := ScopeSlices(e, slices, claims);
      BudgetHolds(w, c, e, budget, runs, slices, claims, out);
    }
  }

  lemma StartsWhole(w: Encoder, c: Channel, e: I.Entry, budget: nat, runs: seq<Run>, i: nat, claims: AuthorMap,
                    touched: set<Author>)
    requires Additive(w) && RunsOf(runs, e.have, e.have.Keys) && i < |runs|
    requires Sliced(w, c, e, budget, runs, i, [], claims, touched)
    requires Fits(w, c, e, budget, map[] + runs[i].have)
    ensures Sliced(w, c, e, budget, runs, i + 1, [Slice(runs[i].prefix, runs[i].have)], claims + runs[i].have, touched)
    ensures map[] + runs[i].have == runs[i].have
  {
    hide RunsOf, Sliced, Fits, Additive, Shrinks, Shrank;
    var run := runs[i].have;
    assert map[] + run == run;
    RunIsHeld(runs, e, i);
    CutNotAtAll(w, c, e, budget, run);
    StepCut(w, c, e, budget, runs, i, [], claims, touched, run, {});
    assert [] + [Slice(runs[i].prefix, run)] == [Slice(runs[i].prefix, run)];
    assert touched + {} == touched;
  }

  lemma RunNotEmpty(runs: seq<Run>, e: I.Entry, i: nat)
    requires RunsOf(runs, e.have, e.have.Keys) && i < |runs|
    ensures runs[i].have != map[] && forall a :: a in runs[i].have ==> runs[i].have[a] != []
  {
    hide RunsOf;
    RunIsHeld(runs, e, i);
  }

  lemma ApartSize(w: Encoder, c: Channel, e: I.Entry, budget: nat, runs: seq<Run>, i: nat, all: seq<Slice>,
                  claims: AuthorMap, touched: set<Author>, kept: AuthorMap, more: set<Author>)
    requires RunsOf(runs, e.have, e.have.Keys) && i < |runs|
    requires Sliced(w, c, e, budget, runs, i, all, claims, touched)
    requires Shrinks(kept, runs[i].have)
    requires forall a :: a in more <==> Shrank(kept, runs[i].have, a)
    ensures |touched + more| == |touched| + |more|
  {
    hide RunsOf, Fits, HoldsShare, Lost, ClosedPrefix, LostWhereTooBig, EachFits;
    LostMore(claims, runs, e.have, i, kept, touched, more);
    assert |touched + more| == |touched| + |more| - |touched * more|;
    assert touched * more == {};
  }

  lemma SlicedParts(w: Encoder, c: Channel, e: I.Entry, budget: nat, runs: seq<Run>, all: seq<Slice>, claims: AuthorMap,
                    touched: set<Author>)
    requires RunsOf(runs, e.have, e.have.Keys) && touched == Shrunken(claims, e.have)
    requires Sliced(w, c, e, budget, runs, |runs|, all, claims, touched)
    ensures EachFits(w, c, e, budget, all)
    ensures forall k :: 0 < k < |all| ==> CutAt(w, c, e, budget, all[k - 1].have, all[k].first)
    ensures forall a :: a in e.have ==> LeastCut(w, c, e, budget, RunAt(e.have, a.prefix), RunAt(claims, a.prefix))
    ensures !Fits(w, c, e, budget, map[]) ==> |all| == |runs| && forall k :: 0 <= k < |all| ==> all[k].first == runs[k].prefix
    ensures |touched| == 0 <==> RunsFit(w, c, e, budget)
  {
    hide RunsOf, Fits, Shrank, RunsFit, LostWhereTooBig;
    hide LeastCut, RunAt;
    ShrankIsHeld(claims, e.have);
    LostNothing(w, c, e, budget, runs, touched);
    forall a | a in e.have ensures LeastCut(w, c, e, budget, RunAt(e.have, a.prefix), RunAt(claims, a.prefix)) {
      var k := RunOfPrefix(e, runs, a.prefix);
      RunIsRunAt(runs, e.have, k);
    }
  }

  lemma NothingHeld(w: Encoder, c: Channel, e: I.Entry, budget: nat, claims: AuthorMap)
    requires e.have == map[] && Shrinks(claims, e.have)
    ensures Scopable(e, [Slice(e.lo, map[])], claims) && claims == map[]
    ensures RunsFit(w, c, e, budget) && SlicesFit(w, c, e, budget) && Shrunken(claims, e.have) == {}
  {
    assert claims == map[];
    assert HoldsShare([Slice(e.lo, map[])], claims, 0);
  }

  lemma PureFits(w: Encoder, c: Channel, e: I.Entry, budget: nat, s: I.Entry)
    requires Additive(w) && Fits(w, c, e, budget, map[]) && s.have == map[]
    ensures w.want(map[c := s]) <= budget
  {
    SliceFits(w, c, e, budget, s);
  }

  // ---- A slice over budget ----

  /** A size function to show it with: one byte per author. */
  function SingleLen(i: I.Interest): nat {
    if i == map[] then 0
    else
      var c := MinOf(i.Keys);
      VarintLen(i[c].lo) + VarintLen(i[c].hi) + |i[c].have|
  }

  lemma SingleLenOf(c: Channel, e: I.Entry)
    ensures SingleLen(map[c := e]) == VarintLen(e.lo) + VarintLen(e.hi) + |e.have|
  {
    var i: I.Interest := map[c := e];
    assert i.Keys == {c};
    assert MinOf(i.Keys) in i.Keys;
  }

  lemma SubMapSize(m: AuthorMap, n: AuthorMap)
    requires SubMap(m, n)
    ensures |m| <= |n|
  {
    SubsetSize(m.Keys, n.Keys);
    assert |m| == |m.Keys| && |n| == |n.Keys|;
  }

  function PerAuthor(): Encoder {
    Encoder((i: I.Interest) => SingleLen(i), (c: Channel) => 0, (m: AuthorMap) => |m|)
  }

  lemma PerAuthorAdds()
    ensures Additive(PerAuthor())
  {
    hide SingleLen;
    forall c: Channel, e: I.Entry
      ensures PerAuthor().want(map[c := e])
           == PerAuthor().base(c) + VarintLen(e.lo) + VarintLen(e.hi) + PerAuthor().have(e.have)
    {
      SingleLenOf(c, e);
    }
    forall m: AuthorMap, n: AuthorMap | SubMap(m, n) ensures PerAuthor().have(m) <= PerAuthor().have(n) {
      SubMapSize(m, n);
    }
  }

  /** The budget is not always kept: with one byte per author and a budget of five, an entry over the whole
      prefix space with one author is cut into slices of which one is over the budget. */
  method SliceOverBudget() returns (e: I.Entry, out: seq<I.Entry>, k: nat)
    ensures Additive(PerAuthor()) && e == I.RawEntry(0, R.SEQ_MAX, map[Author(0, 0) := [0]])
    ensures exists claims :: SlicesOf(PerAuthor(), 0, e, 5, out, claims)
    ensures k < |out| && 5 < PerAuthor().want(map[0 := out[k]])
  {
    hide Additive, SlicesOf, SlicesFit, RunsFit, PerAuthor, CutAt, LeastCut;
    PerAuthorAdds();
    e := I.RawEntry(0, R.SEQ_MAX, map[Author(0, 0) := [0]]);
    var w := PerAuthor();
    var truncated; ghost var claims;
    out, truncated, claims := SliceEntry(w, 0, e, 5);
    OverBudget(e);
    k := 0;
    while k < |out| && w.want(map[0 := out[k]]) <= 5
      invariant k <= |out| && forall j :: 0 <= j < k ==> w.want(map[0 := out[j]]) <= 5
    {
      k := k + 1;
    }
  }

  lemma OverBudget(e: I.Entry)
    requires e == I.RawEntry(0, R.SEQ_MAX, map[Author(0, 0) := [0]])
    ensures !SlicesFit(PerAuthor(), 0, e, 5)
  {
    hide SingleLen;
    var w := PerAuthor();
    PerAuthorAdds();
    FitsMeans(w, 0, e, 5, map[]);
    assert Author(0, 0) in e.have && Author(0, 0).prefix == 0;
    assert IsTile(e, 0, 0, R.SEQ_MAX);
    assert !PureFitsIn(w, 0, 5, 0, R.SEQ_MAX);
  }
}

/** The finite procedure that decides coverage over an unbounded author space. */
module Coverage {
  import R = Ranges
  import opened Logs
  import opened Interests

  // ---- The scope sweep ----

  datatype Scope = Scope(lo: Seq, hi: Seq)

  predicate ScopeLeq(x: Scope, y: Scope) {
    x.lo < y.lo || (x.lo == y.lo && x.hi <= y.hi)
  }

  ghost predicate SortedScopes(s: seq<Scope>) {
    forall i, j :: 0 <= i < j < |s| ==> s[i].lo <= s[j].lo
  }

  ghost predicate SomeScopeHas(s: seq<Scope>, p: int) {
    exists i :: 0 <= i < |s| && s[i].lo <= p <= s[i].hi
  }

  function InsertScope(x: Scope, s: seq<Scope>): (r: seq<Scope>)
    requires SortedScopes(s)
    ensures SortedScopes(r)
    ensures forall y :: y in r <==> y == x || y in s
  {
    if s == [] then [x]
    else if ScopeLeq(x, s[0]) then [x] + s
    else
      assert s == [s[0]] + s[1..];
      var rest := InsertScope(x, s[1..]);
      assert forall i :: 0 <= i < |rest| ==> rest[i] in rest;
      [s[0]] + rest
  }

  /** `sort_unstable` on `(lo, hi)` pairs. */
  function SortScopes(s: seq<Scope>): (r: seq<Scope>)
    ensures SortedScopes(r)
    ensures forall y :: y in r <==> y in s
  {
    if s == [] then []
    else
      assert s == [s[0]] + s[1..];
      InsertScope(s[0], SortScopes(s[1..]))
  }

  /** Step 1: walk the scopes in order, keeping the first prefix not yet covered. `hi + 1` is taken
      only below the entry's own `hi`, so it stays in range. */
  method ScopesCover(lo: Seq, hi: Seq, scopes: seq<Scope>) returns (covered: bool)
    requires lo <= hi
    ensures covered <==> forall p :: lo <= p <= hi ==> SomeScopeHas(scopes, p)
  {
    var sorted := SortScopes(scopes);
    SameScopes(scopes, sorted);
    var need: R.Option<Seq> := R.Some(lo);
    var k := 0;
    while k < |sorted|
      invariant 0 <= k <= |sorted|
      invariant need.Some? ==> lo <= need.value <= hi
      invariant forall p :: lo <= p < (if need.Some? then need.value else hi + 1) ==> SomeScopeHas(sorted, p)
      invariant need.Some? ==> forall i :: 0 <= i < k ==> sorted[i].hi < need.value
    {
      if need.None? {
        break;
      }
      var n := need.value;
      var scope := sorted[k];
      if scope.lo > n {
        Gap(sorted, k, n);
        return false;
      }
      if scope.hi >= n {
        forall p | n <= p <= scope.hi ensures SomeScopeHas(sorted, p) {
          assert sorted[k].lo <= p <= sorted[k].hi;
        }
        need := if scope.hi >= hi then R.None else R.Some(scope.hi + 1);
      }
      k := k + 1;
    }
    if need.Some? {
      Gap(sorted, k, need.value);
    }
    return need.None?;
  }

  lemma SameScopes(s: seq<Scope>, t: seq<Scope>)
    requires forall y :: y in s <==> y in t
    ensures forall p :: SomeScopeHas(s, p) <==> SomeScopeHas(t, p)
  {
    forall p ensures SomeScopeHas(s, p) <==> SomeScopeHas(t, p) {
      if SomeScopeHas(s, p) {
        var i :| 0 <= i < |s| && s[i].lo <= p <= s[i].hi;
        assert s[i] in s;
        var j :| 0 <= j < |t| && t[j] == s[i];
        assert t[j].lo <= p <= t[j].hi;
      }
      if SomeScopeHas(t, p) {
        var i :| 0 <= i < |t| && t[i].lo <= p <= t[i].hi;
        assert t[i] in t;
        var j :| 0 <= j < |s| && s[j] == t[i];
        assert s[j].lo <= p <= s[j].hi;
      }
    }
  }

  /** Everything before `k` ends below `n` and everything from `k` on starts above it. */
  lemma Gap(sorted: seq<Scope>, k: nat, n: Seq)
    requires SortedScopes(sorted) && k <= |sorted|
    requires forall i :: 0 <= i < k ==> sorted[i].hi < n
    requires k < |sorted| ==> n < sorted[k].lo
    ensures !SomeScopeHas(sorted, n)
  {
  }

  // ---- The listed authors ----

  /** The intersection of the haves of the records whose scope contains `a`; `None` without any. */
  method CommonHave(records: seq<Entry>, a: Author) returns (common: R.Option<R.Ranges>)
    ensures common.None? <==> forall i :: 0 <= i < |records| ==> !InScope(records[i], a)
    ensures common.Some? ==> forall s: Seq :: R.Contains(common.value, s) <==> !AskedBySome(records, a, s)
  {
    common := R.None;
    var i := 0;
    while i < |records|
      invariant 0 <= i <= |records|
      invariant common.None? <==> forall j :: 0 <= j < i ==> !InScope(records[j], a)
      invariant common.Some? ==> forall s: Seq ::
                  R.Contains(common.value, s) <==> forall j :: 0 <= j < i ==> !EntryAsks(records[j], a, s)
    {
      if InScope(records[i], a) {
        var h := HaveOf(records[i], a);
        ghost var before := common;
        common := R.Some(if common.None? then h else R.Intersection(common.value, h));
        forall s: Seq
          ensures R.Contains(common.value, s) <==> forall j :: 0 <= j < i + 1 ==> !EntryAsks(records[j], a, s)
        {
          CommonStep(records, i, a, s, before, common.value);
        }
      }
      i := i + 1;
    }
  }

  lemma CommonStep(records: seq<Entry>, i: nat, a: Author, s: Seq, before: R.Option<R.Ranges>, after: R.Ranges)
    requires i < |records| && InScope(records[i], a)
    requires before.None? ==> forall j :: 0 <= j < i ==> !InScope(records[j], a)
    requires before.Some? ==> (R.Contains(before.value, s) <==> forall j :: 0 <= j < i ==> !EntryAsks(records[j], a, s))
    requires after == if before.None? then HaveOf(records[i], a) else R.Intersection(before.value, HaveOf(records[i], a))
    ensures R.Contains(after, s) <==> forall j :: 0 <= j < i + 1 ==> !EntryAsks(records[j], a, s)
  {
    assert EntryAsks(records[i], a, s) <==> !R.Contains(HaveOf(records[i], a), s);
    if R.Contains(after, s) {
      forall j | 0 <= j < i + 1 ensures !EntryAsks(records[j], a, s) {
      }
    }
  }

  /** Every author in `e`'s scope listed by `e` or by a record. */
  function Listed(e: RawEntry, records: seq<Entry>): (r: set<Author>)
    ensures forall a :: a in r <==> a in e.have || ListedInScope(e, records, a)
  {
    if records == [] then e.have.Keys
    else
      assert records == [records[0]] + records[1..];
      (set a | a in records[0].have.Keys && InScope(e, a)) + Listed(e, records[1..])
  }

  predicate ListedInScope(e: RawEntry, records: seq<Entry>, a: Author) {
    InScope(e, a) && exists i :: 0 <= i < |records| && a in records[i].have
  }

  /** Some author of prefix `p` that no entry lists: the author space is larger than any list. */
  lemma FreshAuthor(known: set<Author>, p: Seq) returns (a: Author)
    ensures a.prefix == p && a !in known
  {
    var bound := RestBound(known);
    a := Author(p, bound);
  }

  lemma RestBound(known: set<Author>) returns (bound: nat)
    ensures forall a :: a in known ==> a.rest < bound
  {
    bound := 0;
    var todo := known;
    while todo != {}
      invariant todo <= known
      invariant forall a :: a in known && a !in todo ==> a.rest < bound
    {
      var a :| a in todo;
      if bound <= a.rest {
        bound := a.rest + 1;
      }
      todo := todo - {a};
    }
  }

  function ScopesOf(records: seq<Entry>): (r: seq<Scope>)
    ensures |r| == |records|
    ensures forall i :: 0 <= i < |r| ==> r[i] == Scope(records[i].lo, records[i].hi)
  {
    seq(|records|, i requires 0 <= i < |records| => Scope(records[i].lo, records[i].hi))
  }

  lemma AskedHasScope(records: seq<Entry>, a: Author, s: Seq)
    requires AskedBySome(records, a, s)
    ensures SomeScopeHas(ScopesOf(records), a.prefix)
  {
    var i :| 0 <= i < |records| && EntryAsks(records[i], a, s);
    assert ScopesOf(records)[i].lo <= a.prefix <= ScopesOf(records)[i].hi;
  }

  /** A gap in the scopes is an author nobody asks about. */
  lemma GapIsUncovered(e: Entry, records: seq<Entry>, p: Seq)
    requires e.lo <= p <= e.hi && !SomeScopeHas(ScopesOf(records), p)
    ensures !Covered(e, records)
  {
    var a := FreshAuthor(Listed(e, records), p);
    assert EntryAsks(e, a, 0) by {
      R.EmptyContainsNothing();
    }
    if AskedBySome(records, a, 0) {
      AskedHasScope(records, a, 0);
    }
  }

  /** With the scopes covered, an author nobody lists is asked for in full. */
  lemma UnlistedIsCovered(e: Entry, records: seq<Entry>, a: Author, s: Seq)
    requires SomeScopeHas(ScopesOf(records), a.prefix)
    requires InScope(e, a) && a !in Listed(e, records)
    ensures AskedBySome(records, a, s)
  {
    var scopes := ScopesOf(records);
    var i :| 0 <= i < |scopes| && scopes[i].lo <= a.prefix <= scopes[i].hi;
    assert a !in records[i].have;
    R.EmptyContainsNothing();
    assert EntryAsks(records[i], a, s);
  }

  /** `covered_by` decides coverage exactly, in both directions. */
  method DecideCovered(e: Entry, records: seq<Entry>) returns (covered: bool)
    ensures covered <==> Covered(e, records)
  {
    if records == [] {
      GapIsUncovered(e, records, e.lo);
      return false;
    }
    var tiled := ScopesCover(e.lo, e.hi, ScopesOf(records));
    if !tiled {
      ghost var p: int :| e.lo <= p <= e.hi && !SomeScopeHas(ScopesOf(records), p);
      GapIsUncovered(e, records, p);
      return false;
    }
    var authors := Listed(e, records);
    var todo := authors;
    while todo != {}
      invariant todo <= authors
      invariant forall a: Author, s: Seq :: a in authors && a !in todo && EntryAsks(e, a, s) ==> AskedBySome(records, a, s)
    {
      var a :| a in todo;
      var common := CommonHave(records, a);
      if common.None? {
        NobodyInScope(e, records, a);
        return false;
      }
      var missing := R.Difference(common.value, HaveOf(e, a));
      if missing != [] {
        R.NonEmptyHasMember(missing);
        assert EntryAsks(e, a, missing[0]) && !AskedBySome(records, a, missing[0]);
        return false;
      }
      R.EmptyContainsNothing();
      forall s: Seq | EntryAsks(e, a, s) ensures AskedBySome(records, a, s) {
        assert !R.Contains(missing, s);
      }
      todo := todo - {a};
    }
    forall a: Author, s: Seq | EntryAsks(e, a, s) ensures AskedBySome(records, a, s) {
      if a !in authors {
        UnlistedIsCovered(e, records, a, s);
      }
    }
    return true;
  }

  lemma NobodyInScope(e: Entry, records: seq<Entry>, a: Author)
    requires InScope(e, a) && forall i :: 0 <= i < |records| ==> !InScope(records[i], a)
    ensures !Covered(e, records)
  {
    forall i | 0 <= i < |ScopesOf(records)|
      ensures !(ScopesOf(records)[i].lo <= a.prefix <= ScopesOf(records)[i].hi)
    {
      assert !InScope(records[i], a);
    }
    GapIsUncovered(e, records, a.prefix);
  }

  // ---- Other author spaces ----

  /** Coverage when only the authors in `space` exist. */
  ghost predicate CoveredIn(e: RawEntry, records: seq<Entry>, space: iset<Author>) {
    forall a: Author, s: Seq :: a in space && EntryAsks(e, a, s) ==> AskedBySome(records, a, s)
  }

  ghost predicate PrefixHasUnlisted(e: RawEntry, records: seq<Entry>, space: iset<Author>, p: Seq) {
    exists a :: a in space && a.prefix == p && a !in Listed(e, records)
  }

  /** In any author space holding the listed authors, the verdict is coverage there and nothing more
      than that the scopes also tile the entry's scope: it is sound always, and it misses a covered
      entry exactly when some prefix in scope is in no record's scope. */
  lemma VerdictInSpace(e: Entry, records: seq<Entry>, space: iset<Author>)
    requires forall a :: a in Listed(e, records) ==> a in space
    ensures Covered(e, records) <==>
            CoveredIn(e, records, space) && forall p :: e.lo <= p <= e.hi ==> SomeScopeHas(ScopesOf(records), p)
  {
    if Covered(e, records) {
      forall p | e.lo <= p <= e.hi ensures SomeScopeHas(ScopesOf(records), p) {
        if !SomeScopeHas(ScopesOf(records), p) {
          GapIsUncovered(e, records, p);
        }
      }
    }
    if CoveredIn(e, records, space) && forall p :: e.lo <= p <= e.hi ==> SomeScopeHas(ScopesOf(records), p) {
      forall a: Author, s: Seq | EntryAsks(e, a, s) ensures AskedBySome(records, a, s) {
        if a !in space {
          UnlistedIsCovered(e, records, a, s);
        }
      }
    }
  }

  /** In particular it is exact where every prefix in scope has an author that nobody lists. */
  lemma ExactWithUnlisted(e: Entry, records: seq<Entry>, space: iset<Author>)
    requires forall a :: a in Listed(e, records) ==> a in space
    requires forall p: Seq :: e.lo <= p <= e.hi ==> PrefixHasUnlisted(e, records, space, p)
    ensures Covered(e, records) <==> CoveredIn(e, records, space)
  {
    if CoveredIn(e, records, space) {
      forall p | e.lo <= p <= e.hi ensures SomeScopeHas(ScopesOf(records), p) {
        assert PrefixHasUnlisted(e, records, space, p);
        var a :| a in space && a.prefix == p && a !in Listed(e, records);
        R.EmptyContainsNothing();
        assert EntryAsks(e, a, 0);
        AskedHasScope(records, a, 0);
      }
    }
    VerdictInSpace(e, records, space);
  }

  /** With a single author the verdict can be false although nothing is left uncovered: the scope of
      the record is the one author's prefix, and the other prefixes belong to nobody. */
  lemma IncompleteInSmallSpace(e: Entry, r: Entry, only: Author)
    requires e == RawEntry(0, R.SEQ_MAX, map[])
    requires r == RawEntry(only.prefix, only.prefix, map[])
    ensures CoveredIn(e, [r], iset{only}) && !Covered(e, [r])
  {
    forall a: Author, s: Seq | a in iset{only} && EntryAsks(e, a, s) ensures AskedBySome([r], a, s) {
      assert EntryAsks([r][0], a, s);
    }
    var p: Seq := if only.prefix == 0 then 1 else 0;
    assert ScopesOf([r]) == [Scope(only.prefix, only.prefix)];
    GapIsUncovered(e, [r], p);
  }
}

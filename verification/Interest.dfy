/** What a Want carries: per channel, the emitter's have within an author-prefix scope. Everything
    else in the scope is asked for. */
module Interests {
  import R = Ranges
  import opened Logs
  import LR = LogRanges

  type Seq = R.Seq
  type AuthorMap = LR.AuthorMap
  type LogRanges = LR.LogRanges

  datatype RawEntry = RawEntry(lo: Seq, hi: Seq, have: AuthorMap)

  predicate InScope(e: RawEntry, a: Author) {
    e.lo <= a.prefix <= e.hi
  }

  ghost predicate ValidEntry(e: RawEntry) {
    && e.lo <= e.hi
    && (forall a :: a in e.have ==> InScope(e, a))
    && (forall a :: a in e.have ==> e.have[a] != [])
  }

  /** The scope is not inverted, every listed author is in it, no listed range is empty. */
  type Entry = e: RawEntry | ValidEntry(e) witness RawEntry(0, R.SEQ_MAX, map[])

  /** At most one entry per channel. */
  type Interest = map<Channel, Entry>

  /** Lists no author: asks for everything in scope. */
  predicate IsPure(e: Entry) {
    e.have == map[]
  }

  function HaveOf(e: RawEntry, a: Author): R.Ranges {
    if a in e.have then e.have[a] else []
  }

  /** The meaning of an entry: it asks for every `(author, seq)` in scope that it does not list. */
  predicate EntryAsks(e: RawEntry, a: Author, s: Seq) {
    InScope(e, a) && !R.Contains(HaveOf(e, a), s)
  }

  /** The meaning of an interest: the union of its entries' asks. */
  predicate Asks(i: Interest, k: Key) {
    k.log.channel in i && EntryAsks(i[k.log.channel], k.log.author, k.at)
  }

  // ---- Construction ----

  /** An inverted scope or an author outside it is refused; empty ranges are dropped. */
  function NewEntry(lo: Seq, hi: Seq, have: AuthorMap): (r: R.Option<Entry>)
    ensures r.Some? <==> lo <= hi && forall a :: a in have ==> lo <= a.prefix <= hi
    ensures r.Some? ==> r.value.lo == lo && r.value.hi == hi
    ensures r.Some? ==> forall a, s :: EntryAsks(r.value, a, s) <==> EntryAsks(RawEntry(lo, hi, have), a, s)
  {
    if lo > hi || exists a :: a in have && !(lo <= a.prefix <= hi) then R.None
    else
      R.EmptyContainsNothing();
      R.Some(RawEntry(lo, hi, map a | a in have && have[a] != [] :: have[a]))
  }

  method NewEntryLoop(lo: Seq, hi: Seq, have: AuthorMap) returns (r: R.Option<Entry>)
    ensures r == NewEntry(lo, hi, have)
  {
    if lo > hi {
      return R.None;
    }
    var out: AuthorMap := map[];
    var todo := have.Keys;
    while todo != {}
      invariant todo <= have.Keys
      invariant forall a :: a in have && a !in todo ==> lo <= a.prefix <= hi
      invariant forall a :: a in out <==> a in have && a !in todo && have[a] != []
      invariant forall a :: a in out ==> out[a] == have[a]
    {
      var a :| a in todo;
      if !(lo <= a.prefix <= hi) {
        return R.None;
      }
      if have[a] != [] {
        out := out[a := have[a]];
      }
      todo := todo - {a};
    }
    assert out == map a | a in have && have[a] != [] :: have[a];
    r := R.Some(RawEntry(lo, hi, out));
  }

  function Whole(have: AuthorMap): (e: Entry)
    requires forall a :: a in have ==> have[a] != []
    ensures forall a, s :: EntryAsks(e, a, s) <==> !(a in have && R.Contains(have[a], s))
  {
    R.EmptyContainsNothing();
    RawEntry(0, R.SEQ_MAX, have)
  }

  /** A log's non-empty ranges under one channel of `held`, by author. */
  function HeldAuthors(held: LogRanges, c: Channel): AuthorMap {
    map a | a in LR.AuthorsOf(held, c) && held[c][a] != [] :: held[c][a]
  }

  /** Whole-scope entries for `channels`, each claiming what `held` holds under it. */
  function FromHeld(held: LogRanges, channels: set<Channel>): (i: Interest)
    ensures i.Keys == channels
    ensures forall k :: Asks(i, k) <==> k.log.channel in channels && !LR.Has(held, k)
    ensures forall c :: c in i ==> (IsPure(i[c]) <==> !HoldsUnder(held, c))
  {
    var i: Interest := map c | c in channels :: Whole(HeldAuthors(held, c));
    assert forall k :: Asks(i, k) <==> k.log.channel in channels && !LR.Has(held, k) by {
      forall k ensures Asks(i, k) <==> k.log.channel in channels && !LR.Has(held, k) {
        FromHeldAt(held, channels, i, k);
      }
    }
    assert forall c :: c in i ==> (IsPure(i[c]) <==> !HoldsUnder(held, c)) by {
      forall c | c in i ensures IsPure(i[c]) <==> !HoldsUnder(held, c) {
        assert i[c].have == HeldAuthors(held, c);
        if HoldsUnder(held, c) {
          var a :| a in LR.AuthorsOf(held, c) && held[c][a] != [];
          assert a in HeldAuthors(held, c);
        }
      }
    }
    i
  }

  lemma FromHeldAt(held: LogRanges, channels: set<Channel>, i: Interest, k: Key)
    requires i.Keys == channels && forall c :: c in i ==> i[c] == Whole(HeldAuthors(held, c))
    ensures Asks(i, k) <==> k.log.channel in channels && !LR.Has(held, k)
  {
    R.EmptyContainsNothing();
    var c, a := k.log.channel, k.log.author;
    var have := HeldAuthors(held, c);
    assert LR.Has(held, k) <==> a in have && R.Contains(have[a], k.at);
  }

  /** At least one op held under the channel. */
  predicate HoldsUnder(held: LogRanges, c: Channel) {
    exists a :: a in LR.AuthorsOf(held, c) && held[c][a] != []
  }

  lemma HoldsUnderHas(held: LogRanges, c: Channel)
    ensures HoldsUnder(held, c) <==> exists k: Key :: k.log.channel == c && LR.Has(held, k)
  {
    R.EmptyContainsNothing();
    if HoldsUnder(held, c) {
      var a :| a in LR.AuthorsOf(held, c) && held[c][a] != [];
      R.NonEmptyHasMember(held[c][a]);
      var k := Key(Log(c, a), held[c][a][0]);
      assert LR.Has(held, k);
    }
    if exists k: Key :: k.log.channel == c && LR.Has(held, k) {
      var k: Key :| k.log.channel == c && LR.Has(held, k);
      assert k.log.author in LR.AuthorsOf(held, c) && held[c][k.log.author] != [];
    }
  }

  // ---- What an ask yields ----

  /** What `e` asks for, out of one channel's held ranges. */
  function AskAuthors(e: Entry, m: AuthorMap): AuthorMap {
    map a | a in m && InScope(e, a) && R.Difference(m[a], HaveOf(e, a)) != [] :: R.Difference(m[a], HaveOf(e, a))
  }

  /** The union over entries of what each asks for out of `held`: exactly the held keys asked for. */
  function AskWithin(i: Interest, held: LogRanges): (r: LogRanges)
    ensures forall k :: LR.Has(r, k) <==> LR.Has(held, k) && Asks(i, k)
    ensures LR.Clean(r)
  {
    var r: LogRanges := map c | c in i && c in held && AskAuthors(i[c], held[c]) != map[] :: AskAuthors(i[c], held[c]);
    assert forall k :: LR.Has(r, k) <==> LR.Has(held, k) && Asks(i, k) by {
      forall k ensures LR.Has(r, k) <==> LR.Has(held, k) && Asks(i, k) {
        AskWithinAt(i, held, r, k);
      }
    }
    r
  }

  lemma AskWithinAt(i: Interest, held: LogRanges, r: LogRanges, k: Key)
    requires forall c :: c in r <==> c in i && c in held && AskAuthors(i[c], held[c]) != map[]
    requires forall c :: c in r ==> r[c] == AskAuthors(i[c], held[c])
    ensures LR.Has(r, k) <==> LR.Has(held, k) && Asks(i, k)
  {
    R.EmptyContainsNothing();
    var c, a := k.log.channel, k.log.author;
    if c in i && LR.Known(held, k.log) && InScope(i[c], a) {
      var d := R.Difference(held[c][a], HaveOf(i[c], a));
      if d != [] {
        assert a in AskAuthors(i[c], held[c]);
        assert LR.Get(r, k.log) == d;
      } else {
        assert !LR.Known(r, k.log);
      }
    } else {
      assert !LR.Known(r, k.log);
    }
  }

  // ---- Coverage ----

  /** Everything `e` asks for is asked for by some record: the meaning of `covered_by`. */
  ghost predicate Covered(e: RawEntry, records: seq<Entry>) {
    forall a: Author, s: Seq :: EntryAsks(e, a, s) ==> AskedBySome(records, a, s)
  }

  ghost predicate AskedBySome(records: seq<Entry>, a: Author, s: Seq) {
    exists i :: 0 <= i < |records| && EntryAsks(records[i], a, s)
  }

  /** The entries of the seen interests for one channel. */
  function Records(seen: seq<Interest>, c: Channel): (r: seq<Entry>)
    ensures forall i :: 0 <= i < |seen| && c in seen[i] ==> seen[i][c] in r
    ensures forall e :: e in r ==> exists i :: 0 <= i < |seen| && c in seen[i] && seen[i][c] == e
  {
    if seen == [] then []
    else
      assert forall i :: 0 < i < |seen| ==> seen[i] == seen[1..][i - 1];
      if c in seen[0] then [seen[0][c]] + Records(seen[1..], c) else Records(seen[1..], c)
  }

  ghost predicate CoveredBy(e: RawEntry, c: Channel, seen: seq<Interest>) {
    Covered(e, Records(seen, c))
  }

  /** Some seen interest asks for `k`. */
  ghost predicate AskedBy(seen: seq<Interest>, k: Key) {
    exists i :: 0 <= i < |seen| && Asks(seen[i], k)
  }

  lemma AskedBySomeIsAskedBy(seen: seq<Interest>, k: Key)
    ensures AskedBySome(Records(seen, k.log.channel), k.log.author, k.at) <==> AskedBy(seen, k)
  {
    var c := k.log.channel;
    var records := Records(seen, c);
    if AskedBySome(records, k.log.author, k.at) {
      var j :| 0 <= j < |records| && EntryAsks(records[j], k.log.author, k.at);
      assert records[j] in records;
      var i :| 0 <= i < |seen| && c in seen[i] && seen[i][c] == records[j];
      assert Asks(seen[i], k);
    }
    if AskedBy(seen, k) {
      var i :| 0 <= i < |seen| && Asks(seen[i], k);
      var j :| 0 <= j < |records| && records[j] == seen[i][c];
      assert EntryAsks(records[j], k.log.author, k.at);
    }
  }

  /** Coverage, read off the interests: everything asked for under `c` is asked for by a seen one. */
  lemma CoveredByMeans(e: RawEntry, c: Channel, seen: seq<Interest>)
    ensures CoveredBy(e, c, seen) <==>
            forall k: Key :: k.log.channel == c && EntryAsks(e, k.log.author, k.at) ==> AskedBy(seen, k)
  {
    if CoveredBy(e, c, seen) {
      forall k: Key | k.log.channel == c && EntryAsks(e, k.log.author, k.at) ensures AskedBy(seen, k) {
        AskedBySomeIsAskedBy(seen, k);
      }
    }
    if forall k: Key :: k.log.channel == c && EntryAsks(e, k.log.author, k.at) ==> AskedBy(seen, k) {
      forall a: Author, s: Seq | EntryAsks(e, a, s) ensures AskedBySome(Records(seen, c), a, s) {
        var k := Key(Log(c, a), s);
        assert k.log.channel == c && EntryAsks(e, k.log.author, k.at);
        AskedBySomeIsAskedBy(seen, k);
      }
    }
  }

  /** The entries of `i` that the seen interests do not already cover. */
  ghost function UncoveredBy(i: Interest, seen: seq<Interest>): (r: Interest) {
    map c | c in i && !CoveredBy(i[c], c, seen) :: i[c]
  }

  ghost predicate AnyUncoveredBy(i: Interest, seen: seq<Interest>) {
    exists c :: c in i && !CoveredBy(i[c], c, seen)
  }

  /** An interest that has been seen is covered, and more seen interests never uncover. */
  lemma SeenIsCovered(i: Interest, seen: seq<Interest>)
    requires i in seen
    ensures !AnyUncoveredBy(i, seen)
  {
    var n :| 0 <= n < |seen| && seen[n] == i;
    forall c | c in i ensures CoveredBy(i[c], c, seen) {
      forall k: Key | k.log.channel == c && EntryAsks(i[c], k.log.author, k.at) ensures AskedBy(seen, k) {
        assert Asks(seen[n], k);
      }
      CoveredByMeans(i[c], c, seen);
    }
  }

  lemma CoverageIsMonotone(e: RawEntry, c: Channel, seen: seq<Interest>, more: seq<Interest>)
    requires CoveredBy(e, c, seen)
    requires forall i :: i in seen ==> i in more
    ensures CoveredBy(e, c, more)
  {
    CoveredByMeans(e, c, seen);
    forall k: Key | k.log.channel == c && EntryAsks(e, k.log.author, k.at) ensures AskedBy(more, k) {
      var n :| 0 <= n < |seen| && Asks(seen[n], k);
      assert seen[n] in more;
      var m :| 0 <= m < |more| && more[m] == seen[n];
    }
    CoveredByMeans(e, c, more);
  }
}

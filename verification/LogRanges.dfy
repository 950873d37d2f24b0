/** Log identities. A log is single-author; its channel is the half shared across authors. */
module Logs {
  import opened Ranges

  type Channel = nat
  type NodeId = nat
  type Time = nat

  /** An author id: its first four bytes as a number, and the rest. */
  datatype Author = Author(prefix: Seq, rest: nat)

  datatype Log = Log(channel: Channel, author: Author)

  /** One sequence number of one log. */
  datatype Key = Key(log: Log, at: Seq)

  lemma LeastNat(s: set<nat>) returns (m: nat)
    requires s != {}
    ensures m in s && forall x :: x in s ==> m <= x
  {
    m :| m in s;
    var rest := s - {m};
    if rest != {} {
      var r := LeastNat(rest);
      assert forall x :: x in s ==> x == m || x in rest;
      if r < m {
        m := r;
      }
    } else {
      assert forall x :: x in s ==> x == m || x in rest;
    }
  }

  function MinOf(s: set<nat>): (m: nat)
    requires s != {}
    ensures m in s && forall x :: x in s ==> m <= x
  {
    assert exists m :: m in s && forall x :: x in s ==> m <= x by {
      var m := LeastNat(s);
    }
    var m :| m in s && forall x :: x in s ==> m <= x;
    m
  }
}

/** Ranges across logs, nested by channel then author. A log that is present with an empty range is
    a marker: known, but nothing there. */
module LogRanges {
  import R = Ranges
  import opened Logs

  type Seq = R.Seq
  type AuthorMap = map<Author, R.Ranges>

  /** No channel entry has an empty author map. */
  type LogRanges = m: map<Channel, AuthorMap> | forall c :: c in m ==> m[c] != map[]

  const EMPTY: LogRanges := map[]

  predicate Known(lr: LogRanges, log: Log) {
    log.channel in lr && log.author in lr[log.channel]
  }

  /** The ranges of a log; empty when it is unknown. */
  function Get(lr: LogRanges, log: Log): R.Ranges {
    if Known(lr, log) then lr[log.channel][log.author] else []
  }

  predicate Has(lr: LogRanges, k: Key) {
    R.Contains(Get(lr, k.log), k.at)
  }

  /** Every known log maps to an empty range. */
  predicate IsEmpty(lr: LogRanges) {
    forall c :: c in lr ==> forall a :: a in lr[c] ==> lr[c][a] == []
  }

  /** No markers: every known log has something. */
  ghost predicate Clean(lr: LogRanges) {
    forall log :: Known(lr, log) ==> Get(lr, log) != []
  }

  lemma EmptyHasNothing(lr: LogRanges)
    ensures IsEmpty(lr) <==> forall k :: !Has(lr, k)
  {
    if IsEmpty(lr) {
      forall k ensures !Has(lr, k) {
        assert Get(lr, k.log) == [];
      }
    } else {
      var c, a :| c in lr && a in lr[c] && lr[c][a] != [];
      var log := Log(c, a);
      R.NonEmptyHasMember(Get(lr, log));
      assert Has(lr, Key(log, Get(lr, log)[0]));
    }
  }

  lemma GetDecides(a: LogRanges, b: LogRanges, log: Log)
    requires forall k :: Has(a, k) <==> Has(b, k)
    ensures Get(a, log) == Get(b, log)
  {
    forall s: Seq ensures R.Contains(Get(a, log), s) <==> R.Contains(Get(b, log), s) {
      assert Has(a, Key(log, s)) <==> Has(b, Key(log, s));
    }
    R.Canonical(Get(a, log), Get(b, log));
  }

  /** Values with the same known logs and the same contents are the same value. */
  lemma KnownCanonical(a: LogRanges, b: LogRanges)
    requires forall k :: Has(a, k) <==> Has(b, k)
    requires forall log :: Known(a, log) <==> Known(b, log)
    ensures a == b
  {
    forall c ensures c in a <==> c in b {
      if c in a {
        var x :| x in a[c];
        assert Known(a, Log(c, x));
      }
      if c in b {
        var x :| x in b[c];
        assert Known(b, Log(c, x));
      }
    }
    forall c | c in a ensures a[c] == b[c] {
      forall x ensures x in a[c] <==> x in b[c] {
        assert Known(a, Log(c, x)) <==> Known(b, Log(c, x));
      }
      forall x | x in a[c] ensures a[c][x] == b[c][x] {
        GetDecides(a, b, Log(c, x));
        assert Get(a, Log(c, x)) == a[c][x];
      }
    }
  }

  lemma CleanKnown(lr: LogRanges, log: Log)
    requires Clean(lr)
    ensures Known(lr, log) <==> exists s: Seq :: Has(lr, Key(log, s))
  {
    if Known(lr, log) {
      R.NonEmptyHasMember(Get(lr, log));
      assert Has(lr, Key(log, Get(lr, log)[0]));
    }
  }

  /** Without markers the value is determined by its contents. */
  lemma CleanCanonical(a: LogRanges, b: LogRanges)
    requires Clean(a) && Clean(b)
    requires forall k :: Has(a, k) <==> Has(b, k)
    ensures a == b
  {
    forall log ensures Known(a, log) <==> Known(b, log) {
      GetDecides(a, b, log);
    }
    KnownCanonical(a, b);
  }

  // ---- Union, intersection, difference ----

  function UnionAt(a: AuthorMap, b: AuthorMap, x: Author): R.Ranges
    requires x in a || x in b
  {
    if x !in a then b[x] else if x !in b then a[x] else R.Union(a[x], b[x])
  }

  function UnionAuthors(a: AuthorMap, b: AuthorMap): (r: AuthorMap)
    ensures r.Keys == a.Keys + b.Keys
    ensures forall x :: x in r ==> r[x] == UnionAt(a, b, x)
  {
    map x | x in a.Keys + b.Keys :: UnionAt(a, b, x)
  }

  function UnionChannel(a: LogRanges, b: LogRanges, c: Channel): (r: AuthorMap)
    requires c in a || c in b
    ensures r != map[]
  {
    if c !in a then b[c] else if c !in b then a[c]
    else
      var r := UnionAuthors(a[c], b[c]);
      assert r.Keys != {} by {
        assert a[c].Keys != {};
      }
      r
  }

  /** Keeps every log known to either side, markers included. */
  function Union(a: LogRanges, b: LogRanges): (r: LogRanges)
    ensures forall k :: Has(r, k) <==> Has(a, k) || Has(b, k)
    ensures forall log :: Known(r, log) <==> Known(a, log) || Known(b, log)
  {
    var r: LogRanges := map c | c in a.Keys + b.Keys :: UnionChannel(a, b, c);
    UnionContents(a, b, r);
    r
  }

  lemma UnionContents(a: LogRanges, b: LogRanges, r: LogRanges)
    requires r.Keys == a.Keys + b.Keys
    requires forall c :: c in r ==> r[c] == UnionChannel(a, b, c)
    ensures forall k :: Has(r, k) <==> Has(a, k) || Has(b, k)
    ensures forall log :: Known(r, log) <==> Known(a, log) || Known(b, log)
  {
    R.EmptyContainsNothing();
    forall k ensures Has(r, k) <==> Has(a, k) || Has(b, k) {
      var log := k.log;
      assert Known(a, log) && Known(b, log) ==> Get(r, log) == R.Union(Get(a, log), Get(b, log));
    }
  }

  function AuthorsOf(lr: LogRanges, c: Channel): AuthorMap {
    if c in lr then lr[c] else map[]
  }

  function IntersectionAuthors(a: AuthorMap, b: AuthorMap): (r: AuthorMap)
    ensures forall x :: x in r <==> x in a && x in b && R.Intersection(a[x], b[x]) != []
    ensures forall x :: x in r ==> r[x] == R.Intersection(a[x], b[x])
  {
    map x | x in a && x in b && R.Intersection(a[x], b[x]) != [] :: R.Intersection(a[x], b[x])
  }

  function DifferenceAt(r: R.Ranges, b: AuthorMap, x: Author): R.Ranges {
    if x in b then R.Difference(r, b[x]) else r
  }

  function DifferenceAuthors(a: AuthorMap, b: AuthorMap): (r: AuthorMap)
    ensures forall x :: x in r <==> x in a && DifferenceAt(a[x], b, x) != []
    ensures forall x :: x in r ==> r[x] == DifferenceAt(a[x], b, x)
  {
    map x | x in a && DifferenceAt(a[x], b, x) != [] :: DifferenceAt(a[x], b, x)
  }

  function IntersectionChannel(a: LogRanges, b: LogRanges, c: Channel): AuthorMap
    requires c in a
  {
    IntersectionAuthors(a[c], AuthorsOf(b, c))
  }

  function DifferenceChannel(a: LogRanges, b: LogRanges, c: Channel): AuthorMap
    requires c in a
  {
    DifferenceAuthors(a[c], AuthorsOf(b, c))
  }

  /** Only logs with something in common, so no markers. */
  function Intersection(a: LogRanges, b: LogRanges): (r: LogRanges)
    ensures forall k :: Has(r, k) <==> Has(a, k) && Has(b, k)
    ensures Clean(r)
  {
    var r: LogRanges := map c | c in a && IntersectionChannel(a, b, c) != map[] :: IntersectionChannel(a, b, c);
    assert forall k :: Has(r, k) <==> Has(a, k) && Has(b, k) by {
      forall k ensures Has(r, k) <==> Has(a, k) && Has(b, k) {
        IntersectionContents(a, b, r, k);
      }
    }
    r
  }

  lemma IntersectionContents(a: LogRanges, b: LogRanges, r: LogRanges, k: Key)
    requires forall c :: c in r <==> c in a && IntersectionChannel(a, b, c) != map[]
    requires forall c :: c in r ==> r[c] == IntersectionChannel(a, b, c)
    ensures Has(r, k) <==> Has(a, k) && Has(b, k)
  {
    R.EmptyContainsNothing();
    var c, x := k.log.channel, k.log.author;
    if Known(a, k.log) && Known(b, k.log) {
      var v := R.Intersection(a[c][x], b[c][x]);
      if v != [] {
        assert x in IntersectionChannel(a, b, c);
        assert Get(r, k.log) == v;
      } else {
        assert !Known(r, k.log);
      }
    } else {
      assert !Known(r, k.log);
    }
  }

  /** Everything in `a` that is not in `b`; no markers. */
  function Difference(a: LogRanges, b: LogRanges): (r: LogRanges)
    ensures forall k :: Has(r, k) <==> Has(a, k) && !Has(b, k)
    ensures Clean(r)
  {
    var r: LogRanges := map c | c in a && DifferenceChannel(a, b, c) != map[] :: DifferenceChannel(a, b, c);
    assert forall k :: Has(r, k) <==> Has(a, k) && !Has(b, k) by {
      forall k ensures Has(r, k) <==> Has(a, k) && !Has(b, k) {
        DifferenceContents(a, b, r, k);
      }
    }
    r
  }

  lemma DifferenceContents(a: LogRanges, b: LogRanges, r: LogRanges, k: Key)
    requires forall c :: c in r <==> c in a && DifferenceChannel(a, b, c) != map[]
    requires forall c :: c in r ==> r[c] == DifferenceChannel(a, b, c)
    ensures Has(r, k) <==> Has(a, k) && !Has(b, k)
  {
    R.EmptyContainsNothing();
    var c, x := k.log.channel, k.log.author;
    if Known(a, k.log) {
      var v := DifferenceAt(a[c][x], AuthorsOf(b, c), x);
      if v != [] {
        assert x in DifferenceChannel(a, b, c);
        assert Get(r, k.log) == v;
      } else {
        assert !Known(r, k.log);
      }
    } else {
      assert !Known(r, k.log);
    }
  }

  // ---- Insert and remove ----

  /** Sets a log's ranges; an empty one stays as a marker. */
  function Insert(lr: LogRanges, log: Log, r: R.Ranges): (out: LogRanges)
    ensures forall l :: Get(out, l) == if l == log then r else Get(lr, l)
    ensures forall l :: Known(out, l) <==> l == log || Known(lr, l)
  {
    var authors := AuthorsOf(lr, log.channel)[log.author := r];
    assert log.author in authors;
    lr[log.channel := authors]
  }

  /** Forgets a log; a channel whose last log goes is forgotten with it. */
  function Remove(lr: LogRanges, log: Log): (out: LogRanges)
    ensures forall l :: Get(out, l) == if l == log then [] else Get(lr, l)
    ensures forall l :: Known(out, l) <==> l != log && Known(lr, l)
  {
    if !Known(lr, log) then lr
    else
      var rest := lr[log.channel] - {log.author};
      assert forall x :: x in lr[log.channel] ==> x == log.author || x in rest;
      if rest == map[] then lr - {log.channel} else lr[log.channel := rest]
  }

  // ---- The value of a finite set of keys ----

  ghost function SeqsOf(keys: set<Key>, log: Log): (r: set<Seq>)
    ensures forall s: Seq :: s in r <==> Key(log, s) in keys
  {
    set k | k in keys && k.log == log :: k.at
  }

  ghost function AuthorsIn(keys: set<Key>, c: Channel): (r: set<Author>)
    ensures forall x :: x in r <==> SeqsOf(keys, Log(c, x)) != {}
  {
    var r := set k | k in keys && k.log.channel == c :: k.log.author;
    assert forall x :: x in r <==> SeqsOf(keys, Log(c, x)) != {} by {
      forall x ensures x in r <==> SeqsOf(keys, Log(c, x)) != {} {
        if x in r {
          var k :| k in keys && k.log.channel == c && k.log.author == x;
          assert k.at in SeqsOf(keys, Log(c, x));
        }
        if SeqsOf(keys, Log(c, x)) != {} {
          var s: Seq :| s in SeqsOf(keys, Log(c, x));
          assert Key(Log(c, x), s) in keys;
        }
      }
    }
    r
  }

  ghost function AuthorMapOf(keys: set<Key>, c: Channel): (r: AuthorMap)
    ensures forall x :: x in r <==> SeqsOf(keys, Log(c, x)) != {}
    ensures forall x :: x in r ==> r[x] == R.OfSet(SeqsOf(keys, Log(c, x)))
  {
    map x | x in AuthorsIn(keys, c) :: R.OfSet(SeqsOf(keys, Log(c, x)))
  }

  ghost function ChannelsIn(keys: set<Key>): set<Channel> {
    set k | k in keys :: k.log.channel
  }

  /** The marker-free value denoting a finite set of keys. */
  ghost function OfKeys(keys: set<Key>): (r: LogRanges)
    ensures forall k :: Has(r, k) <==> k in keys
    ensures Clean(r)
  {
    OfKeysValid(keys);
    var r: LogRanges := map c | c in ChannelsIn(keys) :: AuthorMapOf(keys, c);
    OfKeysAt(keys, r);
    r
  }

  lemma OfKeysValid(keys: set<Key>)
    ensures forall c :: c in ChannelsIn(keys) ==> AuthorMapOf(keys, c) != map[]
  {
    forall c | c in ChannelsIn(keys) ensures AuthorMapOf(keys, c) != map[] {
      var k :| k in keys && k.log.channel == c;
      assert Key(Log(c, k.log.author), k.at) == k;
      assert k.log.author in AuthorMapOf(keys, c);
    }
  }

  lemma OfKeysGet(keys: set<Key>, r: LogRanges, log: Log)
    requires r.Keys == ChannelsIn(keys)
    requires forall c :: c in r ==> r[c] == AuthorMapOf(keys, c)
    ensures Get(r, log) == R.OfSet(SeqsOf(keys, log))
    ensures Known(r, log) <==> SeqsOf(keys, log) != {}
  {
    assert Log(log.channel, log.author) == log;
    if SeqsOf(keys, log) != {} {
      var s: Seq :| s in SeqsOf(keys, log);
      assert Key(log, s) in keys;
      assert log.channel in ChannelsIn(keys);
    }
  }

  lemma OfKeysAt(keys: set<Key>, r: LogRanges)
    requires r.Keys == ChannelsIn(keys)
    requires forall c :: c in r ==> r[c] == AuthorMapOf(keys, c)
    ensures forall k :: Has(r, k) <==> k in keys
    ensures Clean(r)
  {
    forall k ensures Has(r, k) <==> k in keys {
      OfKeysGet(keys, r, k.log);
      assert Key(k.log, k.at) == k;
    }
    forall log | Known(r, log) ensures Get(r, log) != [] {
      OfKeysGet(keys, r, log);
      var s: Seq :| s in SeqsOf(keys, log);
      assert R.Contains(Get(r, log), s);
      R.EmptyContainsNothing();
    }
  }

  /** One log and one sequence number. */
  ghost function Singleton(k: Key): (r: LogRanges)
    ensures forall x :: Has(r, x) <==> x == k
    ensures Clean(r)
  {
    OfKeys({k})
  }

  /** Adding what is already there changes nothing, structurally. */
  lemma UnionAbsorbs(a: LogRanges, b: LogRanges)
    requires Clean(a) && Clean(b)
    requires forall k :: Has(b, k) ==> Has(a, k)
    ensures Union(a, b) == a
  {
    var u := Union(a, b);
    forall log | Known(u, log) ensures Get(u, log) != [] {
      UnionNonEmpty(a, b, log);
    }
    CleanCanonical(u, a);
  }

  lemma UnionNonEmpty(a: LogRanges, b: LogRanges, log: Log)
    requires Known(Union(a, b), log) && Clean(a) && Clean(b)
    ensures Get(Union(a, b), log) != []
  {
    if Known(a, log) {
      CleanKnown(a, log);
      var s: Seq :| Has(a, Key(log, s));
      assert Has(Union(a, b), Key(log, s));
    } else {
      CleanKnown(b, log);
      var s: Seq :| Has(b, Key(log, s));
      assert Has(Union(a, b), Key(log, s));
    }
    R.EmptyContainsNothing();
  }

  lemma UnionClean(a: LogRanges, b: LogRanges)
    requires Clean(a) && Clean(b)
    ensures Clean(Union(a, b))
  {
    forall log | Known(Union(a, b), log) ensures Get(Union(a, b), log) != [] {
      UnionNonEmpty(a, b, log);
    }
  }

  // ---- The loops ----

  /** The inner loop of `union`: `theirs` merged into `mine`, author by author. */
  method MergeAuthors(mine: AuthorMap, theirs: AuthorMap) returns (out: AuthorMap)
    ensures out == UnionAuthors(mine, theirs)
  {
    out := mine;
    var todo := theirs.Keys;
    while todo != {}
      invariant todo <= theirs.Keys
      invariant out.Keys == mine.Keys + (theirs.Keys - todo)
      invariant forall x :: x in out ==>
                  out[x] == if x in todo then mine[x] else UnionAt(mine, theirs, x)
    {
      var a :| a in todo;
      var merged: R.Ranges := if a in out then R.Union(out[a], theirs[a]) else theirs[a];
      assert merged == UnionAt(mine, theirs, a);
      out := out[a := merged];
      todo := todo - {a};
    }
  }

  /** `union`: start from a copy of one side and merge the other in, channel by channel. */
  method UnionLoop(a: LogRanges, b: LogRanges) returns (out: LogRanges)
    ensures out == Union(a, b)
  {
    var acc: map<Channel, AuthorMap> := a;
    var todo := b.Keys;
    while todo != {}
      invariant todo <= b.Keys
      invariant acc.Keys == a.Keys + (b.Keys - todo)
      invariant forall c :: c in acc ==> acc[c] == if c in todo then a[c] else UnionChannel(a, b, c)
    {
      var c :| c in todo;
      var mine: AuthorMap := if c in acc then acc[c] else map[];
      var merged := MergeAuthors(mine, b[c]);
      MergedChannel(a, b, c, merged);
      acc := acc[c := merged];
      todo := todo - {c};
    }
    UnionIs(a, b, acc);
    out := acc;
  }

  lemma UnionIs(a: LogRanges, b: LogRanges, acc: map<Channel, AuthorMap>)
    requires acc.Keys == a.Keys + b.Keys
    requires forall c :: c in acc ==> acc[c] == UnionChannel(a, b, c)
    ensures acc == Union(a, b)
  {
  }

  lemma MergedChannel(a: LogRanges, b: LogRanges, c: Channel, merged: AuthorMap)
    requires c in b && merged == UnionAuthors(AuthorsOf(a, c), b[c])
    ensures merged == UnionChannel(a, b, c)
  {
    if c !in a {
      assert forall x :: x in merged ==> merged[x] == b[c][x];
    }
  }

  /** The inner loop of `difference`, keeping only what is left over. */
  method SubtractAuthors(mine: AuthorMap, theirs: AuthorMap) returns (out: AuthorMap)
    ensures out == DifferenceAuthors(mine, theirs)
  {
    out := map[];
    var todo := mine.Keys;
    while todo != {}
      invariant todo <= mine.Keys
      invariant forall x :: x in out <==> x in mine && x !in todo && DifferenceAt(mine[x], theirs, x) != []
      invariant forall x :: x in out ==> out[x] == DifferenceAt(mine[x], theirs, x)
    {
      var a :| a in todo;
      var d: R.Ranges := if a in theirs then R.Difference(mine[a], theirs[a]) else mine[a];
      if d != [] {
        out := out[a := d];
      }
      todo := todo - {a};
    }
  }

  /** `difference`: a channel is created only when one of its logs has something left. */
  method DifferenceLoop(a: LogRanges, b: LogRanges) returns (out: LogRanges)
    ensures out == Difference(a, b)
  {
    var acc: map<Channel, AuthorMap> := map[];
    var todo := a.Keys;
    while todo != {}
      invariant todo <= a.Keys
      invariant forall c :: c in acc <==> c in a && c !in todo && DifferenceChannel(a, b, c) != map[]
      invariant forall c :: c in acc ==> acc[c] == DifferenceChannel(a, b, c)
    {
      var c :| c in todo;
      var left := SubtractAuthors(a[c], AuthorsOf(b, c));
      if left != map[] {
        acc := acc[c := left];
      }
      todo := todo - {c};
    }
    DifferenceIs(a, b, acc);
    out := acc;
  }

  lemma DifferenceIs(a: LogRanges, b: LogRanges, acc: map<Channel, AuthorMap>)
    requires forall c :: c in acc <==> c in a && DifferenceChannel(a, b, c) != map[]
    requires forall c :: c in acc ==> acc[c] == DifferenceChannel(a, b, c)
    ensures acc == Difference(a, b)
  {
  }

  /** The inner loop of `intersection`. */
  method CommonAuthors(mine: AuthorMap, theirs: AuthorMap) returns (out: AuthorMap)
    ensures out == IntersectionAuthors(mine, theirs)
  {
    out := map[];
    var todo := mine.Keys;
    while todo != {}
      invariant todo <= mine.Keys
      invariant forall x :: x in out <==> x in mine && x !in todo && x in theirs && R.Intersection(mine[x], theirs[x]) != []
      invariant forall x :: x in out ==> out[x] == R.Intersection(mine[x], theirs[x])
    {
      var a :| a in todo;
      if a in theirs {
        var x := R.Intersection(mine[a], theirs[a]);
        if x != [] {
          out := out[a := x];
        }
      }
      todo := todo - {a};
    }
  }

  /** `intersection`: a channel both sides know is created only when one of its logs has something in common. */
  method IntersectionLoop(a: LogRanges, b: LogRanges) returns (out: LogRanges)
    ensures out == Intersection(a, b)
  {
    var acc: map<Channel, AuthorMap> := map[];
    var todo := a.Keys;
    while todo != {}
      invariant todo <= a.Keys
      invariant forall c :: c in acc <==> c in a && c !in todo && IntersectionChannel(a, b, c) != map[]
      invariant forall c :: c in acc ==> acc[c] == IntersectionChannel(a, b, c)
    {
      var c :| c in todo;
      if c in b {
        var common := CommonAuthors(a[c], b[c]);
        if common != map[] {
          acc := acc[c := common];
        }
      } else {
        NothingCommon(a, b, c);
      }
      todo := todo - {c};
    }
    IntersectionIs(a, b, acc);
    out := acc;
  }

  lemma NothingCommon(a: LogRanges, b: LogRanges, c: Channel)
    requires c in a && c !in b
    ensures IntersectionChannel(a, b, c) == map[]
  {
  }

  lemma IntersectionIs(a: LogRanges, b: LogRanges, acc: map<Channel, AuthorMap>)
    requires forall c :: c in acc <==> c in a && IntersectionChannel(a, b, c) != map[]
    requires forall c :: c in acc ==> acc[c] == IntersectionChannel(a, b, c)
    ensures acc == Intersection(a, b)
  {
  }
}

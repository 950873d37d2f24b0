/** The list form of a Have: merging two stores' fetches, grouping by log, and reading it back. */
module Hydrate {
  import R = Ranges
  import opened Logs
  import LR = LogRanges
  import opened Storage
  import Node

  datatype Item = Item(key: Key, op: Op)

  /** The first copy of `k`. */
  function First(s: seq<Item>, k: Key): Option<Op> {
    if s == [] then R.None
    else if s[0].key == k then R.Some(s[0].op)
    else First(s[1..], k)
  }

  ghost predicate Strict(s: seq<Item>) {
    forall i, j :: 0 <= i < j < |s| ==> KeyLess(s[i].key, s[j].key)
  }

  function At(m: OpsMap, k: Key): Option<Op> {
    if k in m then R.Some(m[k]) else R.None
  }

  /** `s` lists `m` in key order. */
  ghost predicate Lists(s: seq<Item>, m: OpsMap) {
    Strict(s) && forall k :: First(s, k) == At(m, k)
  }

  lemma {:induction false} FirstIn(s: seq<Item>, k: Key)
    ensures First(s, k).Some? <==> exists i :: 0 <= i < |s| && s[i].key == k
    ensures First(s, k).Some? ==> Item(k, First(s, k).value) in s
  {
    if s != [] {
      FirstIn(s[1..], k);
      if s[0].key != k && exists i :: 0 <= i < |s| && s[i].key == k {
        var i :| 0 <= i < |s| && s[i].key == k;
        assert s[1..][i - 1] == s[i];
      }
    }
  }

  lemma FirstOfItem(s: seq<Item>, i: nat)
    requires Strict(s) && i < |s|
    ensures First(s, s[i].key) == R.Some(s[i].op)
  {
    FirstIn(s, s[i].key);
    var j :| 0 <= j < |s| && s[j] == Item(s[i].key, First(s, s[i].key).value);
    if j != i {
      KeyLessTotal(s[i].key, s[j].key);
    }
  }

  /** A store has one listing. */
  lemma {:induction false} ListingUnique(a: seq<Item>, b: seq<Item>)
    requires Strict(a) && Strict(b)
    requires forall k :: First(a, k) == First(b, k)
    ensures a == b
  {
    if a != [] {
      assert First(b, a[0].key) == First(a, a[0].key);
    }
    if b != [] {
      assert First(a, b[0].key) == First(b, b[0].key);
    }
    if a != [] && b != [] {
      HeadIsLeast(a);
      HeadIsLeast(b);
      assert First(b, a[0].key) == R.Some(a[0].op) && First(a, b[0].key) == R.Some(b[0].op);
      KeyLessTotal(a[0].key, b[0].key);
      forall k ensures First(a[1..], k) == First(b[1..], k) {
        assert First(a, k) == First(b, k);
      }
      ListingUnique(a[1..], b[1..]);
      assert a == [a[0]] + a[1..] && b == [b[0]] + b[1..];
    }
  }

  lemma HeadIsLeast(s: seq<Item>)
    requires Strict(s) && s != []
    ensures Strict(s[1..])
    ensures forall k :: First(s, k).Some? ==> k == s[0].key || KeyLess(s[0].key, k)
    ensures First(s[1..], s[0].key).None?
  {
    forall k | First(s, k).Some? ensures k == s[0].key || KeyLess(s[0].key, k) {
      FirstIn(s, k);
    }
    FirstIn(s[1..], s[0].key);
    forall i | 0 <= i < |s[1..]| ensures s[1..][i].key != s[0].key {
      assert s[1..][i] == s[i + 1];
      KeyLessTotal(s[0].key, s[i + 1].key);
    }
  }

  /** The listing of a store. */
  function Listing(m: OpsMap): (s: seq<Item>)
    ensures Lists(s, m)
  {
    var keys := SortedKeys(m.Keys);
    var s := seq(|keys|, i requires 0 <= i < |keys| => Item(keys[i], m[keys[i]]));
    assert forall k :: First(s, k) == At(m, k) by {
      forall k ensures First(s, k) == At(m, k) {
        FirstIn(s, k);
        if k in m {
          var i :| 0 <= i < |keys| && keys[i] == k;
          assert s[i].key == k;
        }
      }
    }
    s
  }

  // ---- The merge of two fetches ----

  /** By key, a payload-bearing copy first. */
  predicate ItemLeq(a: Item, b: Item) {
    KeyLess(a.key, b.key) || (a.key == b.key && (a.op.payload.Some? || b.op.payload.None?))
  }

  ghost predicate SortedItems(s: seq<Item>) {
    forall i, j :: 0 <= i < j < |s| ==> ItemLeq(s[i], s[j])
  }

  lemma ItemLeqTotal(a: Item, b: Item, c: Item)
    ensures ItemLeq(a, b) || ItemLeq(b, a)
    ensures ItemLeq(a, b) && ItemLeq(b, c) ==> ItemLeq(a, c)
  {
    KeyLessTotal(a.key, b.key);
    if KeyLess(a.key, b.key) && KeyLess(b.key, c.key) {
      KeyLessTransitive(a.key, b.key, c.key);
    }
  }

  /** Stable insertion: before everything not smaller. */
  function InsertItem(x: Item, s: seq<Item>): (r: seq<Item>)
    ensures forall it :: it in r <==> it == x || it in s
  {
    if s == [] || ItemLeq(x, s[0]) then [x] + s else [s[0]] + InsertItem(x, s[1..])
  }

  lemma {:induction false} InsertKeepsSorted(x: Item, s: seq<Item>)
    requires SortedItems(s)
    ensures SortedItems(InsertItem(x, s))
  {
    hide ItemLeq;
    var r := InsertItem(x, s);
    if s == [] || ItemLeq(x, s[0]) {
      forall i, j | 0 <= i < j < |r| ensures ItemLeq(r[i], r[j]) {
        if i == 0 {
          assert r[j] == s[j - 1];
          ItemLeqTotal(x, s[0], s[j - 1]);
        }
      }
    } else {
      var rest := InsertItem(x, s[1..]);
      InsertKeepsSorted(x, s[1..]);
      forall j | 0 <= j < |rest| ensures ItemLeq(s[0], rest[j]) {
        assert rest[j] in rest;
        if rest[j] != x {
          var i :| 0 <= i < |s[1..]| && s[1..][i] == rest[j];
          assert s[i + 1] == rest[j];
        }
        ItemLeqTotal(s[0], x, x);
      }
    }
  }

  /** The copy of `k` that wins when `x` comes before the copies of which `rest` is the winner. */
  function Wins(x: Item, rest: Option<Op>, k: Key): Option<Op> {
    if x.key == k && (rest.None? || x.op.payload.Some? || rest.value.payload.None?) then R.Some(x.op) else rest
  }

  lemma {:induction false} FirstInserted(x: Item, s: seq<Item>, k: Key)
    requires SortedItems(s)
    ensures First(InsertItem(x, s), k) == Wins(x, First(s, k), k)
  {
    if s == [] || ItemLeq(x, s[0]) {
      assert ([x] + s)[1..] == s;
      FirstIn(s, k);
      if x.key == k && First(s, k).Some? {
        var i :| 0 <= i < |s| && s[i] == Item(k, First(s, k).value);
        ItemLeqTotal(x, s[0], s[i]);
        KeyLessTotal(k, k);
      }
    } else {
      assert ([s[0]] + InsertItem(x, s[1..]))[1..] == InsertItem(x, s[1..]);
      FirstInserted(x, s[1..], k);
      ItemLeqTotal(x, s[0], x);
      KeyLessTotal(k, k);
    }
  }

  function SortItems(s: seq<Item>): (r: seq<Item>)
    ensures forall it :: it in r <==> it in s
  {
    if s == [] then [] else InsertItem(s[0], SortItems(s[1..]))
  }

  lemma {:induction false} SortItemsSorts(s: seq<Item>)
    ensures SortedItems(SortItems(s))
  {
    if s != [] {
      SortItemsSorts(s[1..]);
      InsertKeepsSorted(s[0], SortItems(s[1..]));
    }
  }

  /** The best copy of `k` in a list: the first with a payload, else the first. */
  function Best(s: seq<Item>, k: Key): Option<Op> {
    if s == [] then R.None else Wins(s[0], Best(s[1..], k), k)
  }

  lemma {:induction false} SortPutsBestFirst(s: seq<Item>, k: Key)
    ensures First(SortItems(s), k) == Best(s, k)
  {
    if s != [] {
      SortItemsSorts(s[1..]);
      SortPutsBestFirst(s[1..], k);
      FirstInserted(s[0], SortItems(s[1..]), k);
    }
  }

  lemma {:induction false} FirstSnoc(s: seq<Item>, x: Item, k: Key)
    ensures First(s + [x], k) == if First(s, k).Some? then First(s, k) else if x.key == k then R.Some(x.op) else R.None
  {
    if s == [] {
      assert s + [x] == [x];
    } else {
      assert (s + [x])[1..] == s[1..] + [x];
      FirstSnoc(s[1..], x, k);
    }
  }

  lemma KeepItem(out: seq<Item>, x: Item)
    requires Strict(out)
    requires out != [] ==> KeyLess(out[|out| - 1].key, x.key)
    ensures Strict(out + [x]) && First(out, x.key).None?
  {
    FirstIn(out, x.key);
    forall i | 0 <= i < |out| ensures KeyLess(out[i].key, x.key) && out[i].key != x.key {
      if i < |out| - 1 {
        KeyLessTransitive(out[i].key, out[|out| - 1].key, x.key);
      }
      KeyLessTotal(x.key, x.key);
    }
  }

  /** Keep the first of each run of one key. */
  method DedupItems(s: seq<Item>) returns (out: seq<Item>)
    requires SortedItems(s)
    ensures Strict(out)
    ensures forall k :: First(out, k) == First(s, k)
  {
    out := [];
    hide KeyLess, First;
    assert Strict(out);
    FirstNil();
    for i := 0 to |s|
      invariant Strict(out)
      invariant i == 0 <==> out == []
      invariant out != [] ==> out[|out| - 1].key == s[i - 1].key
      invariant forall k :: First(out, k) == First(s[..i], k)
    {
      assert s[..i + 1] == s[..i] + [s[i]];
      forall k ensures First(s[..i + 1], k) == if First(out, k).Some? then First(out, k)
                                               else if s[i].key == k then R.Some(s[i].op) else R.None {
        FirstSnoc(s[..i], s[i], k);
      }
      if out != [] && out[|out| - 1].key == s[i].key {
        FirstOfItem(out, |out| - 1);
      } else {
        assert i > 0 ==> ItemLeq(s[i - 1], s[i]);
        KeepItem(out, s[i]);
        forall k ensures First(out + [s[i]], k) == First(s[..i + 1], k) {
          FirstSnoc(out, s[i], k);
        }
        out := out + [s[i]];
      }
    }
    assert s[..|s|] == s;
  }

  lemma FirstNil()
    ensures forall k :: First([], k) == R.None
  {
  }

  lemma {:induction false} BestConcat(a: seq<Item>, b: seq<Item>, k: Key)
    requires Strict(a)
    ensures Best(a + b, k) == match First(a, k)
                              case None => Best(b, k)
                              case Some(op) => Wins(Item(k, op), Best(b, k), k)
  {
    if a == [] {
      assert a + b == b;
    } else {
      assert (a + b)[1..] == a[1..] + b;
      HeadIsLeast(a);
      BestConcat(a[1..], b, k);
    }
  }

  lemma BestOfListing(s: seq<Item>, k: Key)
    requires Strict(s)
    ensures Best(s, k) == First(s, k)
  {
    BestConcat(s, [], k);
    assert s + [] == s;
  }

  /** Merging the relay's fetch with the application's lists the hydrated ops: in key order, one copy each,
      the payload-bearing one where there is one. */
  method Merge(relay: OpsMap, ext: OpsMap, r: LR.LogRanges, fromRelay: seq<Item>, fromExt: seq<Item>)
    returns (ops: seq<Item>)
    requires Lists(fromRelay, Within(relay, r)) && Lists(fromExt, Within(ext, r))
    ensures ops == Listing(Node.Hydrated(relay, ext, r))
  {
    hide First, LR.Has, Best, Node.BestCopy;
    SortItemsSorts(fromRelay + fromExt);
    ops := DedupItems(SortItems(fromRelay + fromExt));
    var want := Node.Hydrated(relay, ext, r);
    forall k ensures First(ops, k) == At(want, k) {
      MergedAt(relay, ext, r, fromRelay, fromExt, k);
    }
    ListingUnique(ops, Listing(want));
  }

  lemma MergedAt(relay: OpsMap, ext: OpsMap, r: LR.LogRanges, fromRelay: seq<Item>, fromExt: seq<Item>, k: Key)
    requires Lists(fromRelay, Within(relay, r)) && Lists(fromExt, Within(ext, r))
    ensures First(SortItems(fromRelay + fromExt), k) == At(Node.Hydrated(relay, ext, r), k)
  {
    hide LR.Has;
    SortPutsBestFirst(fromRelay + fromExt, k);
    BestConcat(fromRelay, fromExt, k);
    BestOfListing(fromExt, k);
    assert First(fromRelay, k) == At(Within(relay, r), k);
    assert First(fromExt, k) == At(Within(ext, r), k);
    hide First, Best, SortItems;
  }

  /** `fetch`: the ops within some ranges, in key order. */
  method FetchOps(m: OpsMap, r: LR.LogRanges) returns (out: seq<Item>)
    ensures Lists(out, Within(m, r))
  {
    hide LR.Has, KeyLess, First;
    out := [];
    var keys := SortedKeys(m.Keys);
    for i := 0 to |keys|
      invariant Strict(out)
      invariant forall it :: it in out <==> it.key in keys[..i] && LR.Has(r, it.key) && it.op == m[it.key]
    {
      assert keys[..i + 1] == keys[..i] + [keys[i]];
      if LR.Has(r, keys[i]) {
        KeepFetched(out, keys, i, m[keys[i]]);
        out := out + [Item(keys[i], m[keys[i]])];
      }
    }
    assert keys[..|keys|] == keys;
    FetchedLists(m, r, out);
  }

  lemma KeepFetched(out: seq<Item>, keys: seq<Key>, i: nat, op: Op)
    requires Strict(out) && Sorted(keys) && i < |keys|
    requires forall it :: it in out ==> it.key in keys[..i]
    ensures Strict(out + [Item(keys[i], op)])
  {
    forall j | 0 <= j < |out| ensures KeyLess(out[j].key, keys[i]) {
      assert out[j] in out;
      var n :| 0 <= n < i && keys[n] == out[j].key;
    }
  }

  lemma FetchedLists(m: OpsMap, r: LR.LogRanges, out: seq<Item>)
    requires Strict(out)
    requires forall it :: it in out <==> it.key in m && LR.Has(r, it.key) && it.op == m[it.key]
    ensures Lists(out, Within(m, r))
  {
    hide LR.Has;
    forall k ensures First(out, k) == At(Within(m, r), k) {
      FirstIn(out, k);
      if k in Within(m, r) {
        assert Item(k, m[k]) in out;
        var i :| 0 <= i < |out| && out[i] == Item(k, m[k]);
        FirstOfItem(out, i);
      }
    }
  }

  // ---- Grouping by log ----

  datatype Group = Group(log: Log, seqs: seq<(Seq, Op)>)

  function {:tailrecursion false} Tagged(log: Log, seqs: seq<(Seq, Op)>): seq<Item> {
    if seqs == [] then []
    else
      var last := seqs[|seqs| - 1];
      Tagged(log, seqs[..|seqs| - 1]) + [Item(Key(log, last.0), last.1)]
  }

  /** The flat list a grouped one stands for. */
  function {:tailrecursion false} Flatten(groups: seq<Group>): seq<Item> {
    if groups == [] then []
    else Flatten(groups[..|groups| - 1]) + Tagged(groups[|groups| - 1].log, groups[|groups| - 1].seqs)
  }

  /** The shape of a grouped list: no empty group, no two groups of one log side by side. */
  ghost predicate Grouped(groups: seq<Group>) {
    && (forall i :: 0 <= i < |groups| ==> groups[i].seqs != [])
    && (forall i :: 0 < i < |groups| ==> groups[i - 1].log != groups[i].log)
  }

  /** One more op: into the last group when it is of the same log, else into a new one. */
  function AddOp(out: seq<Group>, x: Item): seq<Group> {
    if out != [] && out[|out| - 1].log == x.key.log then
      var last := out[|out| - 1];
      out[..|out| - 1] + [Group(last.log, last.seqs + [(x.key.at, x.op)])]
    else out + [Group(x.key.log, [(x.key.at, x.op)])]
  }

  lemma AddOpFlattens(out: seq<Group>, x: Item)
    requires Grouped(out)
    ensures Flatten(AddOp(out, x)) == Flatten(out) + [x]
  {
    hide Flatten, Tagged;
    if out != [] && out[|out| - 1].log == x.key.log {
      var front, last := out[..|out| - 1], out[|out| - 1];
      assert out == front + [last];
      FlattenMore(front, last);
      TaggedMore(x.key.log, last.seqs, x.key.at, x.op);
      FlattenMore(front, Group(last.log, last.seqs + [(x.key.at, x.op)]));
    } else {
      TaggedMore(x.key.log, [], x.key.at, x.op);
      TaggedNone(x.key.log);
      assert [] + [(x.key.at, x.op)] == [(x.key.at, x.op)];
      FlattenMore(out, Group(x.key.log, [(x.key.at, x.op)]));
    }
  }

  lemma TaggedNone(log: Log)
    ensures Tagged(log, []) == []
  {
  }

  lemma AddOpGroups(out: seq<Group>, x: Item)
    requires Grouped(out)
    ensures Grouped(AddOp(out, x))
  {
    var r := AddOp(out, x);
    forall i | 0 <= i < |out| - 1 ensures r[i] == out[i] {
    }
    forall i | 0 <= i < |out| ensures r[i].log == out[i].log {
    }
  }

  /** Folding a flat list into groups loses nothing and reorders nothing. */
  method GroupOps(ops: seq<Item>) returns (out: seq<Group>)
    ensures Flatten(out) == ops && Grouped(out)
  {
    out := [];
    assert Flatten(out) == ops[..0];
    hide Flatten, Grouped, AddOp;
    AddOpStart();
    for i := 0 to |ops|
      invariant Flatten(out) == ops[..i] && Grouped(out)
    {
      AddOpFlattens(out, ops[i]);
      AddOpGroups(out, ops[i]);
      out := AddOp(out, ops[i]);
      assert ops[..i + 1] == ops[..i] + [ops[i]];
    }
    assert ops[..|ops|] == ops;
  }

  lemma AddOpStart()
    ensures Grouped([])
  {
  }

  lemma TaggedMore(log: Log, seqs: seq<(Seq, Op)>, at: Seq, op: Op)
    ensures Tagged(log, seqs + [(at, op)]) == Tagged(log, seqs) + [Item(Key(log, at), op)]
  {
    assert (seqs + [(at, op)])[..|seqs|] == seqs;
  }

  lemma FlattenMore(groups: seq<Group>, g: Group)
    ensures Flatten(groups + [g]) == Flatten(groups) + Tagged(g.log, g.seqs)
  {
    assert (groups + [g])[..|groups|] == groups;
  }

  /** What a receiver parks: the last copy of a key wins. */
  function Parked(s: seq<Item>): OpsMap {
    if s == [] then map[] else Parked(s[..|s| - 1])[s[|s| - 1].key := s[|s| - 1].op]
  }

  lemma {:induction false} ParkedOfStrict(s: seq<Item>, k: Key)
    requires Strict(s)
    ensures At(Parked(s), k) == First(s, k)
  {
    if s != [] {
      var front, x := s[..|s| - 1], s[|s| - 1];
      assert s == front + [x];
      ParkedOfStrict(front, k);
      FirstSnoc(front, x, k);
      FirstIn(front, x.key);
      KeyLessTotal(x.key, x.key);
      forall i | 0 <= i < |front| ensures front[i].key != x.key {
        assert KeyLess(s[i].key, s[|s| - 1].key);
      }
    }
  }

  lemma ParkMore(s: seq<Item>, x: Item)
    ensures Parked(s + [x]) == Parked(s)[x.key := x.op]
  {
    assert (s + [x])[..|s|] == s;
  }

  method ParkOps(groups: seq<Group>) returns (parked: OpsMap)
    ensures parked == Parked(Flatten(groups))
  {
    parked := map[];
    assert Flatten(groups[..0]) == [];
    for g := 0 to |groups|
      invariant parked == Parked(Flatten(groups[..g]))
    {
      var log, seqs := groups[g].log, groups[g].seqs;
      ghost var before := Flatten(groups[..g]);
      assert groups[..g + 1] == groups[..g] + [groups[g]];
      FlattenMore(groups[..g], groups[g]);
      assert before + Tagged(log, seqs[..0]) == before;
      for i := 0 to |seqs|
        invariant parked == Parked(before + Tagged(log, seqs[..i]))
      {
        var k := Key(log, seqs[i].0);
        assert seqs[..i + 1] == seqs[..i] + [(seqs[i].0, seqs[i].1)];
        TaggedMore(log, seqs[..i], seqs[i].0, seqs[i].1);
        ParkMore(before + Tagged(log, seqs[..i]), Item(k, seqs[i].1));
        assert before + (Tagged(log, seqs[..i]) + [Item(k, seqs[i].1)])
            == before + Tagged(log, seqs[..i]) + [Item(k, seqs[i].1)];
        parked := parked[k := seqs[i].1];
      }
      assert seqs[..|seqs|] == seqs;
    }
    assert groups[..|groups|] == groups;
  }

  /** What is listed, grouped, sent and parked is what was held: the round trip of a Have. */
  lemma ParkedListing(m: OpsMap)
    ensures Parked(Listing(m)) == m
  {
    hide First;
    forall k ensures At(Parked(Listing(m)), k) == At(m, k) {
      ParkedOfStrict(Listing(m), k);
    }
    SameAt(Parked(Listing(m)), m);
  }

  lemma SameAt(a: OpsMap, b: OpsMap)
    requires forall k :: At(a, k) == At(b, k)
    ensures a == b
  {
    forall k ensures k in a <==> k in b {
      assert At(a, k) == At(b, k);
    }
    forall k | k in a ensures a[k] == b[k] {
      assert At(a, k) == At(b, k);
    }
  }

  // ---- The ranges of what was parked ----

  /** Sequence numbers by log. */
  type ByLog = map<Log, seq<Seq>>

  function SeqsAt(m: ByLog, log: Log): seq<Seq> {
    if log in m then m[log] else []
  }

  /** The keys' ranges, per log. */
  method RangesOf(keys: seq<Key>) returns (out: LR.LogRanges)
    ensures out == LR.OfKeys(set k | k in keys)
  {
    var byLog: ByLog := map[];
    for i := 0 to |keys|
      invariant forall log :: log in byLog ==> byLog[log] != []
      invariant forall k: Key :: k in keys[..i] <==> k.at in SeqsAt(byLog, k.log)
    {
      assert keys[..i + 1] == keys[..i] + [keys[i]];
      byLog := byLog[keys[i].log := SeqsAt(byLog, keys[i].log) + [keys[i].at]];
    }
    assert keys[..|keys|] == keys;
    out := InsertAll(byLog);
    ghost var want := LR.OfKeys(set k | k in keys);
    assert LR.Clean(out) && forall k :: LR.Has(out, k) <==> LR.Has(want, k) by {
      ByLogMeans(byLog, keys, out);
    }
    LR.CleanCanonical(out, want);
  }

  lemma ByLogMeans(byLog: ByLog, keys: seq<Key>, out: LR.LogRanges)
    requires forall log :: log in byLog ==> byLog[log] != []
    requires forall k: Key :: k in keys <==> k.at in SeqsAt(byLog, k.log)
    requires forall log :: LR.Known(out, log) <==> log in byLog
    requires forall log, x: Seq :: log in byLog ==> (R.Contains(LR.Get(out, log), x) <==> x in byLog[log])
    ensures LR.Clean(out) && forall k :: LR.Has(out, k) <==> k in keys
  {
    R.EmptyContainsNothing();
    forall log | LR.Known(out, log) ensures LR.Get(out, log) != [] {
      assert byLog[log][0] in byLog[log];
    }
    forall k ensures LR.Has(out, k) <==> k in keys {
      assert LR.Has(out, k) <==> LR.Known(out, k.log) && R.Contains(LR.Get(out, k.log), k.at);
    }
  }

  lemma NothingKnown()
    ensures forall log :: !LR.Known(LR.EMPTY, log)
  {
  }

  method InsertAll(byLog: ByLog) returns (out: LR.LogRanges)
    ensures forall log :: LR.Known(out, log) <==> log in byLog
    ensures forall log, x: Seq :: log in byLog ==> (R.Contains(LR.Get(out, log), x) <==> x in byLog[log])
  {
    out := LR.EMPTY;
    var todo := byLog.Keys;
    hide R.Contains, LR.Insert, LR.Get, LR.Known;
    NothingKnown();
    while todo != {}
      invariant todo <= byLog.Keys
      invariant forall log :: LR.Known(out, log) <==> log in byLog && log !in todo
      invariant forall log, x: Seq :: log in byLog && log !in todo ==>
                  (R.Contains(LR.Get(out, log), x) <==> x in byLog[log])
    {
      var log :| log in todo;
      var r := R.FromSeqs(byLog[log]);
      out := LR.Insert(out, log, r);
      todo := todo - {log};
    }
  }
}

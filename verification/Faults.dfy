/** Store calls that may fail, and what they leave behind when they do. */
module Faults {
  import R = Ranges
  import opened Logs
  import LR = LogRanges
  import H = Hydrate
  import opened Storage

  /** What becomes of one store call. A failed write may have happened all the same (`done`), and a failed
      eviction may have removed part of what it was asked to. A degraded call reports success and yet does, or
      sees, only `part` of the store, or nothing; it says `under` units less are used, or that an op would add
      `over` units more. That is how a relay store on disk answers. */
  datatype Fault =
    | Fine
    | Failed(done: bool, part: LR.LogRanges)
    | Degraded(done: bool, part: LR.LogRanges, under: nat, over: nat)

  // ---- Writes ----

  function IngestUnder(f: Fault, m: OpsMap, k: Key, op: Op): OpsMap {
    if f.Fine? || f.done then Ingest(m, k, op) else m
  }

  function EvictUnder(f: Fault, m: OpsMap, r: LR.LogRanges): OpsMap {
    if f.Fine? then Evict(m, r) else Evict(m, LR.Intersection(r, f.part))
  }

  function EvictPayloadsUnder(f: Fault, m: OpsMap, r: LR.LogRanges): OpsMap {
    if f.Fine? then EvictPayloads(m, r) else EvictPayloads(m, LR.Intersection(r, f.part))
  }

  /** Nothing was added or changed, and nothing outside the ranges removed. */
  ghost predicate Thinned(m: OpsMap, m': OpsMap, r: LR.LogRanges) {
    && m'.Keys <= m.Keys && (forall k :: k in m' ==> m'[k] == m[k])
    && (forall k :: k in m && !LR.Has(r, k) ==> k in m')
  }

  /** Some payloads within the ranges were dropped, and nothing else happened. */
  ghost predicate Bared(m: OpsMap, m': OpsMap, r: LR.LogRanges) {
    && m'.Keys == m.Keys
    && forall k :: k in m ==> m'[k] == m[k] || (LR.Has(r, k) && m'[k] == StripPayload(m[k]))
  }

  /** An eviction, failed or not, removes nothing it was not asked to. */
  lemma EvictThins(f: Fault, m: OpsMap, r: LR.LogRanges)
    ensures Thinned(m, EvictUnder(f, m, r), r)
  {
    hide LR.Has;
  }

  lemma EvictBares(f: Fault, m: OpsMap, r: LR.LogRanges)
    ensures Bared(m, EvictPayloadsUnder(f, m, r), r)
  {
    hide LR.Has;
  }

  lemma EvictFine(f: Fault, m: OpsMap, r: LR.LogRanges)
    ensures f.Fine? ==> EvictUnder(f, m, r) == Evict(m, r) && EvictPayloadsUnder(f, m, r) == EvictPayloads(m, r)
  {
  }

  /** No op is lost, and no payload once there is lost or changed. */
  ghost predicate Grows(m: OpsMap, m': OpsMap) {
    forall k :: k in m ==> k in m' && (m[k].payload.Some? ==> m'[k] == m[k])
  }

  lemma GrowsByIngest(m: OpsMap, m': OpsMap, k: Key, op: Op)
    requires Grows(m, m')
    ensures Grows(m, Ingest(m', k, op))
  {
  }

  /** What is held by either store stays held by one of them, and what is held with its payload stays held with
      it. */
  ghost predicate NothingLost(relay: OpsMap, ext: OpsMap, relay': OpsMap, ext': OpsMap) {
    && (forall k :: k in relay || k in ext ==> k in relay' || k in ext')
    && (forall k :: HasPayload(relay, k) || HasPayload(ext, k) ==> HasPayload(relay', k) || HasPayload(ext', k))
  }

  // ---- Reads ----

  /** What a read sees of a store. */
  function Seen(f: Fault, m: OpsMap): OpsMap {
    if f.Fine? then m else Within(m, f.part)
  }

  lemma SeenIsPart(f: Fault, m: OpsMap)
    ensures Seen(f, m).Keys <= m.Keys && forall k :: k in Seen(f, m) ==> Seen(f, m)[k] == m[k]
  {
  }

  lemma SeenFine(f: Fault, m: OpsMap)
    ensures f.Fine? ==> Seen(f, m) == m
  {
  }

  /** Ops of the store within the ranges, not necessarily all of them. */
  ghost predicate IsPart(ops: OpsMap, m: OpsMap, r: LR.LogRanges) {
    forall k :: k in ops ==> k in m && ops[k] == m[k] && LR.Has(r, k)
  }

  function UsageUnder(f: Fault, units: nat): nat {
    if !f.Degraded? then units else if f.under <= units then units - f.under else 0
  }

  function DeltaUnder(f: Fault, units: nat): nat {
    if f.Degraded? then units + f.over else units
  }

  /** The ranges held for exactly the logs asked about; one that is not held is a marker. */
  ghost predicate IsHeldOf(h: LR.LogRanges, m: OpsMap, logs: set<Log>) {
    && (forall k: Key :: LR.Has(h, k) <==> k in m && k.log in logs)
    && (forall log :: LR.Known(h, log) <==> log in logs)
  }

  function KeysOfLog(m: OpsMap, log: Log): (r: set<Key>)
    ensures forall k :: k in r <==> k in m && k.log == log
  {
    set k | k in m && k.log == log
  }

  method SeqsOfLog(m: OpsMap, log: Log) returns (out: seq<Seq>)
    ensures forall s: Seq :: s in out <==> Key(log, s) in m
  {
    var keys := SortedKeys(KeysOfLog(m, log));
    out := seq(|keys|, i requires 0 <= i < |keys| => keys[i].at);
    forall s: Seq ensures s in out <==> Key(log, s) in m {
      if s in out {
        var i :| 0 <= i < |out| && out[i] == s;
        assert keys[i] in keys;
        assert keys[i] == Key(log, s);
      }
      if Key(log, s) in m {
        var i :| 0 <= i < |keys| && keys[i] == Key(log, s);
        assert out[i] == s;
      }
    }
  }

  method HeldOf(m: OpsMap, logs: set<Log>) returns (h: LR.LogRanges)
    ensures IsHeldOf(h, m, logs)
  {
    h := LR.EMPTY;
    var todo := logs;
    hide R.Contains, LR.Insert, LR.Get, LR.Known;
    H.NothingKnown();
    while todo != {}
      invariant todo <= logs
      invariant forall log :: LR.Known(h, log) <==> log in logs && log !in todo
      invariant forall log, s: Seq :: log in logs && log !in todo ==> (R.Contains(LR.Get(h, log), s) <==> Key(log, s) in m)
    {
      var log :| log in todo;
      var seqs := SeqsOfLog(m, log);
      var r := R.FromSeqs(seqs);
      h := LR.Insert(h, log, r);
      todo := todo - {log};
    }
    HeldOfMeans(h, m, logs);
  }

  lemma HeldOfMeans(h: LR.LogRanges, m: OpsMap, logs: set<Log>)
    requires forall log :: LR.Known(h, log) <==> log in logs
    requires forall log, s: Seq :: log in logs ==> (R.Contains(LR.Get(h, log), s) <==> Key(log, s) in m)
    ensures IsHeldOf(h, m, logs)
  {
    R.EmptyContainsNothing();
    forall k: Key ensures LR.Has(h, k) <==> k in m && k.log in logs {
      assert k == Key(k.log, k.at);
      assert LR.Has(h, k) <==> LR.Known(h, k.log) && R.Contains(LR.Get(h, k.log), k.at);
    }
  }

  // ---- The touched-logs update of a held snapshot ----

  /** A snapshot that is right for every log not touched. */
  ghost predicate RightElsewhere(cache: LR.LogRanges, relay: OpsMap, ext: OpsMap, touched: set<Log>) {
    && LR.Clean(cache)
    && forall k: Key :: k.log !in touched ==> (LR.Has(cache, k) <==> k in relay || k in ext)
  }

  /** Replace each touched log's ranges, and forget it when there is nothing. */
  method Patch(cache: LR.LogRanges, merged: LR.LogRanges, touched: set<Log>) returns (out: LR.LogRanges)
    ensures forall log :: LR.Get(out, log) == if log in touched then LR.Get(merged, log) else LR.Get(cache, log)
    ensures LR.Clean(cache) ==> LR.Clean(out)
  {
    out := cache;
    var todo := touched;
    hide LR.Get, LR.Known, LR.Insert, LR.Remove;
    while todo != {}
      invariant todo <= touched
      invariant forall log :: LR.Get(out, log) == if log in touched && log !in todo then LR.Get(merged, log)
                                                   else LR.Get(cache, log)
      invariant LR.Clean(cache) ==> LR.Clean(out)
    {
      var log :| log in todo;
      var m := LR.Get(merged, log);
      if m == [] {
        out := LR.Remove(out, log);
      } else {
        out := LR.Insert(out, log, m);
      }
      todo := todo - {log};
    }
  }

  /** The patched snapshot is the full recomputation, structurally. */
  lemma PatchedIsRecomputed(cache: LR.LogRanges, relay: OpsMap, ext: OpsMap, touched: set<Log>, extHeld: LR.LogRanges,
                            relayHeld: LR.LogRanges, out: LR.LogRanges, whole: LR.LogRanges)
    requires RightElsewhere(cache, relay, ext, touched)
    requires IsHeldOf(extHeld, ext, touched) && IsHeldOf(relayHeld, relay, touched)
    requires forall log :: LR.Get(out, log) == if log in touched then LR.Get(LR.Union(extHeld, relayHeld), log)
                                                else LR.Get(cache, log)
    requires LR.Clean(out) && LR.Clean(whole)
    requires forall k :: LR.Has(whole, k) <==> k in relay || k in ext
    ensures out == whole
  {
    forall k ensures LR.Has(out, k) <==> LR.Has(whole, k) {
      assert LR.Get(out, k.log) == if k.log in touched then LR.Get(LR.Union(extHeld, relayHeld), k.log)
                                    else LR.Get(cache, k.log);
      assert LR.Has(LR.Union(extHeld, relayHeld), k) <==> LR.Has(extHeld, k) || LR.Has(relayHeld, k);
    }
    LR.CleanCanonical(out, whole);
  }

  // ---- What a snapshot claims when reads fall short ----

  /** Everything in the application's store, and nothing that neither store has. */
  ghost predicate Claims(held: LR.LogRanges, relay: OpsMap, ext: OpsMap) {
    && LR.Clean(held)
    && (forall k :: k in ext ==> LR.Has(held, k))
    && (forall k :: LR.Has(held, k) ==> k in relay || k in ext)
  }

  /** The same, for every log not touched. */
  ghost predicate ClaimsElsewhere(cache: LR.LogRanges, relay: OpsMap, ext: OpsMap, touched: set<Log>) {
    && LR.Clean(cache)
    && (forall k :: k in ext && k.log !in touched ==> LR.Has(cache, k))
    && (forall k: Key :: LR.Has(cache, k) && k.log !in touched ==> k in relay || k in ext)
  }

  /** However little of the relay a read of the touched logs saw, the patched snapshot claims nothing false. */
  lemma PatchedClaims(cache: LR.LogRanges, relay: OpsMap, seen: OpsMap, ext: OpsMap, touched: set<Log>,
                      extHeld: LR.LogRanges, relayHeld: LR.LogRanges, out: LR.LogRanges)
    requires ClaimsElsewhere(cache, relay, ext, touched) && seen.Keys <= relay.Keys
    requires IsHeldOf(extHeld, ext, touched) && IsHeldOf(relayHeld, seen, touched)
    requires forall log :: LR.Get(out, log) == if log in touched then LR.Get(LR.Union(extHeld, relayHeld), log)
                                                else LR.Get(cache, log)
    requires LR.Clean(out)
    ensures Claims(out, relay, ext)
  {
    hide LR.Clean;
    forall k
      ensures LR.Has(out, k) <==> if k.log in touched then LR.Has(extHeld, k) || LR.Has(relayHeld, k) else LR.Has(cache, k)
    {
      assert LR.Get(out, k.log) == if k.log in touched then LR.Get(LR.Union(extHeld, relayHeld), k.log)
                                    else LR.Get(cache, k.log);
      assert LR.Has(LR.Union(extHeld, relayHeld), k) <==> LR.Has(extHeld, k) || LR.Has(relayHeld, k);
    }
    hide LR.Has;
  }
}

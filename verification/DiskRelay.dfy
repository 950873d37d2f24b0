/** The disk store behind the shell: each of its answers is one of those the shell is proved to bear, and the relay's
    cap is kept exactly as far as its usage can be trusted. */
module DiskRelay {
  import R = Ranges
  import opened Logs
  import LR = LogRanges
  import opened Storage
  import opened Faults
  import opened RowKeys
  import opened Disk

  // ---- One answer at a time ----

  /** No disk call reports a failure: the bridge to the fallible interface answers success whatever happened. */
  predicate Answers(f: Fault) {
    !f.Failed?
  }

  function Short(part: LR.LogRanges): Fault {
    Degraded(false, part, 0, 0)
  }

  method Ingest(d: DiskRelayStore, k: Key, op: Op) returns (ghost f: Fault)
    requires d.Valid() && Storable(d.codec, k.log)
    modifies d
    ensures d.Valid() && Answers(f) && d.Rows() == IngestUnder(f, old(d.Rows()), k, op)
    ensures d.Reliable() && old(d.Healthy()) ==> d.Healthy() && f.Fine?
  {
    hide DiskRelayStore.Reliable, Sound, Exact, Contents, Faithful, WellFormed, Storable, Storage.Ingest;
    ghost var m, well := d.Rows(), d.Reliable() && d.Healthy();
    d.IngestOp(k, op);
    f := if well || d.Rows() == Storage.Ingest(m, k, op) then Fine else Short(LR.EMPTY);
  }

  method Evict(d: DiskRelayStore, r: LR.LogRanges) returns (ghost f: Fault)
    requires d.Valid() && AllStorable(d.codec, r)
    modifies d
    ensures d.Valid() && Answers(f) && d.Rows() == EvictUnder(f, old(d.Rows()), r)
    ensures d.Reliable() && old(d.Healthy()) ==> d.Healthy() && f.Fine?
  {
    hide DiskRelayStore.Reliable, Sound, Exact, Contents, Faithful, WellFormed, Thinned, EvictUnder;
    ghost var m, well := d.Rows(), d.Reliable() && d.Healthy();
    d.Evict(r);
    f := if well then Fine else EvictedPart(m, d.Rows(), r);
    ThinnedIsEvict(m, d.Rows(), r);
    EvictFine(f, m, r);
  }

  ghost function EvictedPart(m: OpsMap, m': OpsMap, r: LR.LogRanges): Fault {
    Short(LR.OfKeys(m.Keys - m'.Keys))
  }

  lemma ThinnedIsEvict(m: OpsMap, m': OpsMap, r: LR.LogRanges)
    requires Thinned(m, m', r)
    ensures m' == EvictUnder(EvictedPart(m, m', r), m, r)
  {
    hide LR.Has;
    SameStore(m', EvictUnder(EvictedPart(m, m', r), m, r));
  }

  method EvictPayloads(d: DiskRelayStore, r: LR.LogRanges) returns (ghost f: Fault)
    requires d.Valid() && AllStorable(d.codec, r)
    modifies d
    ensures d.Valid() && Answers(f) && d.Rows() == EvictPayloadsUnder(f, old(d.Rows()), r)
    ensures d.Reliable() && old(d.Healthy()) ==> d.Healthy() && f.Fine?
  {
    hide DiskRelayStore.Reliable, Sound, Exact, Contents, Faithful, WellFormed, Bared, EvictPayloadsUnder;
    ghost var m, well := d.Rows(), d.Reliable() && d.Healthy();
    d.EvictPayloads(r);
    BaredIsEvict(m, d.Rows(), r);
    f := if well then Fine else StrippedPart(m, d.Rows(), r);
    EvictFine(f, m, r);
  }

  ghost function StrippedPart(m: OpsMap, m': OpsMap, r: LR.LogRanges): Fault
    requires m'.Keys == m.Keys
  {
    Short(LR.OfKeys(set k | k in m && m'[k] != m[k]))
  }

  lemma BaredIsEvict(m: OpsMap, m': OpsMap, r: LR.LogRanges)
    requires Bared(m, m', r)
    ensures m'.Keys == m.Keys && m' == EvictPayloadsUnder(StrippedPart(m, m', r), m, r)
  {
    hide LR.Has;
    SameStore(m', EvictPayloadsUnder(StrippedPart(m, m', r), m, r));
  }

  method Fetch(d: DiskRelayStore, r: LR.LogRanges) returns (ops: OpsMap, ghost f: Fault)
    requires d.Valid() && AllStorable(d.codec, r)
    modifies d
    ensures d.Valid() && d.Rows() == old(d.Rows())
    ensures Answers(f) && ops == Within(Seen(f, d.Rows()), r)
    ensures d.Reliable() ==> f.Fine?
  {
    hide DiskRelayStore.Reliable, Sound, Exact, Contents, Faithful, WellFormed, IsPart, Seen;
    ops := d.Fetch(r);
    f := if ops == Within(d.Rows(), r) then Fine else Short(LR.OfKeys(ops.Keys));
    SeenFine(f, d.Rows());
    PartIsSeen(ops, d.Rows(), r);
  }

  lemma PartIsSeen(ops: OpsMap, m: OpsMap, r: LR.LogRanges)
    requires IsPart(ops, m, r)
    ensures ops == Within(Seen(Short(LR.OfKeys(ops.Keys)), m), r)
  {
    hide LR.Has;
    SameStore(ops, Within(Seen(Short(LR.OfKeys(ops.Keys)), m), r));
  }

  method HeldOf(d: DiskRelayStore, logs: set<Log>) returns (h: LR.LogRanges, ghost f: Fault)
    requires d.Valid()
    ensures Answers(f) && IsHeldOf(h, Seen(f, d.Rows()), logs)
    ensures Exact(d.Rows(), d.held, d.payloads) ==> f.Fine?
  {
    hide Sound, Exact, Contents, Faithful, IsHeldOf;
    h := d.HeldOf(logs);
    f := if Exact(d.Rows(), d.held, d.payloads) then Fine else Short(d.held);
  }

  method HeldAll(d: DiskRelayStore) returns (h: LR.LogRanges, ghost f: Fault)
    requires d.Valid()
    ensures Answers(f) && h == Storage.HeldAll(Seen(f, d.Rows()))
    ensures Exact(d.Rows(), d.held, d.payloads) ==> f.Fine?
  {
    hide Sound, Exact, Contents, Faithful, Storage.HeldAll;
    h := d.HeldAll();
    f := if Exact(d.Rows(), d.held, d.payloads) then Fine else Short(d.held);
  }

  method HeldPayloads(d: DiskRelayStore) returns (h: LR.LogRanges, ghost f: Fault)
    requires d.Valid()
    ensures Answers(f) && h == Storage.HeldPayloads(Seen(f, d.Rows()))
    ensures Exact(d.Rows(), d.held, d.payloads) ==> f.Fine?
  {
    hide Sound, Exact, Contents, Faithful, Storage.HeldPayloads;
    h := d.HeldPayloads();
    f := if Exact(d.Rows(), d.held, d.payloads) then Fine else Short(d.payloads);
  }

  /** A forthright answer needs an exact summary and no row with the largest sequence number, and nothing else. */
  method UsageOf(d: DiskRelayStore) returns (units: nat, ghost f: Fault)
    requires d.Valid()
    ensures Answers(f) && units == UsageUnder(f, Usage(d.Rows()))
    ensures f.Fine? <==> Exact(d.Rows(), d.held, d.payloads) && NoLargest(d.Rows())
    ensures f.Degraded? ==> 0 < f.under
  {
    hide Sound, Exact, Contents, Faithful, Usage, NoLargest, UsageClaim;
    units := d.UsageOf();
    f := if units == Usage(d.Rows()) then Fine else Degraded(false, LR.EMPTY, Usage(d.Rows()) - units, 0);
  }

  method DeltaOf(d: DiskRelayStore, k: Key, op: Op) returns (units: nat, ghost f: Fault)
    requires d.Valid()
    ensures Answers(f) && units == DeltaUnder(f, IngestDelta(d.Rows(), k, op))
    ensures Exact(d.Rows(), d.held, d.payloads) ==> f.Fine?
  {
    hide Sound, Exact, Contents, Faithful, IngestDelta, DeltaClaim;
    units := d.DeltaOf(k, op);
    f := if units == IngestDelta(d.Rows(), k, op) then Fine
         else Degraded(false, LR.EMPTY, 0, units - IngestDelta(d.Rows(), k, op));
  }

  // ---- The cap ----

  /** The shell's check before it ingests, on what the summary says. */
  ghost predicate Admits(m: OpsMap, held: LR.LogRanges, payloads: LR.LogRanges, cap: nat, k: Key, op: Op) {
    UsageClaim(m, held, payloads) + DeltaClaim(held, payloads, k, op) <= cap
  }

  /** A store within its cap stays within it when an op is let in. */
  ghost predicate CapSafe(m: OpsMap, held: LR.LogRanges, payloads: LR.LogRanges, cap: nat, k: Key, op: Op) {
    Usage(m) <= cap && Admits(m, held, payloads, cap, k, op) ==> Usage(Storage.Ingest(m, k, op)) <= cap
  }

  /** Whatever the cap and the op, the check keeps the cap, if and only if the summary is exact and no row has the
      largest sequence number. */
  lemma CapSafeIff(m: OpsMap, held: LR.LogRanges, payloads: LR.LogRanges)
    requires Sound(m, held, payloads)
    ensures (forall cap, k, op :: CapSafe(m, held, payloads, cap, k, op)) <==> Exact(m, held, payloads) && NoLargest(m)
  {
    hide Sound, Exact, NoLargest, UsageClaim, Usage, CapSafe;
    UsageClaimMeans(m, held, payloads);
    if Exact(m, held, payloads) && NoLargest(m) {
      forall cap, k, op ensures CapSafe(m, held, payloads, cap, k, op) {
        TrustedIsSafe(m, held, payloads, cap, k, op);
      }
    } else {
      var k := FreshKey(m.Keys);
      var op := Op([], R.None);
      FreshOverruns(m, held, payloads, k, op);
      assert !CapSafe(m, held, payloads, Usage(m), k, op);
    }
  }

  lemma TrustedIsSafe(m: OpsMap, held: LR.LogRanges, payloads: LR.LogRanges, cap: nat, k: Key, op: Op)
    requires Sound(m, held, payloads) && Usage(m) <= UsageClaim(m, held, payloads)
    ensures CapSafe(m, held, payloads, cap, k, op)
  {
    hide UsageClaim, Usage, Storage.Ingest;
    DeltaIsGrowth(m, k, op);
    DeltaClaimMeans(m, held, payloads, k, op);
    hide Sound, DeltaClaim, IngestDelta;
  }

  lemma DeltaClaimMeans(m: OpsMap, held: LR.LogRanges, payloads: LR.LogRanges, k: Key, op: Op)
    requires Sound(m, held, payloads)
    ensures IngestDelta(m, k, op) <= DeltaClaim(held, payloads, k, op)
    ensures k !in m ==> DeltaClaim(held, payloads, k, op) == IngestDelta(m, k, op)
  {
    hide LR.Has, LR.Clean;
  }

  /** At the failing input: the store at its cap, its usage read too low, and a new header. It is let in, and the
      store is one over its cap. */
  lemma FreshOverruns(m: OpsMap, held: LR.LogRanges, payloads: LR.LogRanges, k: Key, op: Op)
    requires Sound(m, held, payloads) && UsageClaim(m, held, payloads) < Usage(m)
    requires k !in m && op.payload.None?
    ensures Admits(m, held, payloads, Usage(m), k, op) && Usage(Storage.Ingest(m, k, op)) == Usage(m) + 1
    ensures !CapSafe(m, held, payloads, Usage(m), k, op)
  {
    hide UsageClaim, Usage, Storage.Ingest;
    DeltaIsGrowth(m, k, op);
    DeltaClaimMeans(m, held, payloads, k, op);
    hide Sound, DeltaClaim;
  }

  lemma {:induction false} FreshKey(keys: set<Key>) returns (k: Key)
    ensures k !in keys
    ensures forall x :: x in keys ==> x.log.channel < k.log.channel
    decreases keys
  {
    if keys == {} {
      k := Key(Log(0, Author(0, 0)), 0);
    } else {
      var x := Pick(keys);
      k := FreshKey(keys - {x});
      if k.log.channel <= x.log.channel {
        k := Key(Log(x.log.channel + 1, k.log.author), 0);
      }
    }
  }

  // ---- A batch, as the shell takes it in ----

  /** The summary is exact, and no row has the largest sequence number. */
  ghost predicate Trusted(d: DiskRelayStore)
    requires Faithful(d.codec)
    reads d
  {
    Exact(d.Rows(), d.held, d.payloads) && NoLargest(d.Rows())
  }

  /** One op, let in if it fits beside `usage`. */
  method ParkNext(d: DiskRelayStore, cap: nat, k: Key, op: Op, usage: nat) returns (usage': nat)
    requires d.Valid() && Storable(d.codec, k.log)
    modifies d
    ensures d.Valid()
    ensures d.Rows() == old(d.Rows()) || d.Rows() == Storage.Ingest(old(d.Rows()), k, op)
    ensures Usage(old(d.Rows())) <= usage ==> Usage(d.Rows()) <= usage'
    ensures Usage(old(d.Rows())) <= usage && Usage(old(d.Rows())) <= cap ==> Usage(d.Rows()) <= cap
    ensures d.Reliable() && old(d.Healthy()) ==> d.Healthy()
    ensures d.Reliable() && old(d.Healthy()) && usage + old(DeltaClaim(d.held, d.payloads, k, op)) <= cap ==>
              d.Rows() == Storage.Ingest(old(d.Rows()), k, op)
  {
    hide DiskRelayStore.Reliable, Sound, Exact, Contents, Faithful, WellFormed, Usage, Storage.Ingest, IngestDelta,
         DeltaClaim, Storable;
    usage' := usage;
    var units := d.DeltaOf(k, op);
    if usage + units > cap {
      return;
    }
    DeltaIsGrowth(d.Rows(), k, op);
    d.IngestOp(k, op);
    usage' := usage + units;
  }

  /** The relay's share of a Have: usage read once and tracked, each op let in if it fits. From a trusted summary
      the cap is kept, whatever the database does on the way; and as long as nothing fails and no op has the
      largest sequence number, the summary stays trusted for the batches that follow. */
  method ParkBatch(d: DiskRelayStore, cap: nat, ops: seq<(Key, Op)>)
    requires d.Valid() && forall i :: 0 <= i < |ops| ==> Storable(d.codec, ops[i].0.log)
    modifies d
    ensures d.Valid() && Grows(old(d.Rows()), d.Rows())
    ensures old(Trusted(d)) && Usage(old(d.Rows())) <= cap ==> Usage(d.Rows()) <= cap
    ensures old(Trusted(d)) && d.Reliable() && old(d.Healthy()) && (forall i :: 0 <= i < |ops| ==> ops[i].0.at != R.SEQ_MAX)
            ==> Trusted(d) && d.Healthy()
  {
    hide DiskRelayStore.Reliable, Sound, Contents, Faithful, WellFormed, Usage, Grows, Storable, Storage.Ingest,
         NoLargest, Exact;
    ghost var m := d.Rows();
    ghost var trusted, healthy := Trusted(d), Trusted(d) && d.Reliable() && d.Healthy();
    Unchanged(m);
    var usage: Option<nat> := R.None;
    for i := 0 to |ops|
      invariant d.Valid() && Grows(m, d.Rows())
      invariant usage.None? ==> i == 0
      invariant i == 0 ==> d.Rows() == m && (trusted ==> Trusted(d))
      invariant trusted && usage.Some? ==> Usage(d.Rows()) <= usage.value
      invariant trusted && Usage(m) <= cap ==> Usage(d.Rows()) <= cap
      invariant healthy ==> d.Healthy()
      invariant healthy && (forall j :: 0 <= j < i ==> ops[j].0.at != R.SEQ_MAX) ==> NoLargest(d.Rows())
    {
      var k, op := ops[i].0, ops[i].1;
      if usage.None? {
        var units := d.UsageOf();
        usage := R.Some(units);
      }
      GrowsByIngest(m, d.Rows(), k, op);
      if k.at != R.SEQ_MAX {
        NoLargestMore(d.Rows(), k, op);
      }
      var units := ParkNext(d, cap, k, op, usage.value);
      usage := R.Some(units);
    }
  }

  lemma Unchanged(m: OpsMap)
    ensures Grows(m, m)
  {
  }

  lemma NoLargestMore(m: OpsMap, k: Key, op: Op)
    requires k.at != R.SEQ_MAX
    ensures NoLargest(m) ==> NoLargest(Storage.Ingest(m, k, op))
  {
  }

  /** The failing input, run: a store that is exact, at its cap, and holds a row with the largest sequence number
      takes in a new header on top. Nothing has failed. */
  method OverrunsByOne(d: DiskRelayStore, cap: nat, k: Key, op: Op)
    requires d.Valid() && d.Healthy() && d.Reliable() && Storable(d.codec, k.log)
    requires Usage(d.Rows()) == cap && !NoLargest(d.Rows())
    requires k !in d.Rows() && op.payload.None?
    modifies d
    ensures d.Healthy() && Usage(d.Rows()) == cap + 1
  {
    hide DiskRelayStore.Reliable, Sound, Contents, Faithful, WellFormed, Usage, Storable, Storage.Ingest, NoLargest,
         Exact, UsageClaim, DeltaClaim;
    var usage := d.UsageOf();
    FreshOverruns(d.Rows(), d.held, d.payloads, k, op);
    var units := ParkNext(d, cap, k, op, usage);
  }
}

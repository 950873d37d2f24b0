/** The node as the shell runs it: one object, fallible stores, an incremental held snapshot. */
module Shell {
  import R = Ranges
  import opened Logs
  import LR = LogRanges
  import I = Interests
  import Rt = Router
  import RM = RouterMachine
  import H = Hydrate
  import Clocks
  import Node
  import NM = NodeMachine
  import Paced
  import Dl = Deliveries
  import RL = RouterLaws
  import opened Storage
  import opened Faults

  datatype Config = Config(clock: Clocks.Config, relayCap: nat, evictThreshold: nat, peerKey: NodeId -> Option<nat>)

  /** What the shell hands out: a node effect, or the report of a failed call to the application's store. */
  datatype Out = Did(effect: Node.Effect) | StorageError

  /** A wire message: whether its remote is on the local network, what it decodes to, and who the transport
      says sent it. */
  datatype Incoming = Incoming(onLan: bool, decoded: Option<Node.Message>, author: Option<nat>)

  /** Whether a message is taken in: from the local network, decodable, not this node's own, and from the peer
      the transport says it is from. */
  predicate TakesIn(cfg: Config, id: NodeId, inc: Incoming) {
    && inc.onLan && inc.decoded.Some? && inc.decoded.value.sender != id
    && (inc.author.Some? ==> cfg.peerKey(inc.decoded.value.sender) == inc.author)
  }

  function Lift(fx: seq<Node.Effect>): (r: seq<Out>)
    ensures |r| == |fx| && forall i :: 0 <= i < |r| ==> r[i] == Did(fx[i])
  {
    seq(|fx|, i requires 0 <= i < |fx| => Did(fx[i]))
  }

  lemma LiftConcat(a: seq<Node.Effect>, b: seq<Node.Effect>)
    ensures Lift(a + b) == Lift(a) + Lift(b)
  {
  }

  /** The moves are a run of the node machine with its pushes put off, and what it emits was put out. */
  ghost predicate Ran(m: Node.Machine, p: Paced.State, moves: seq<Paced.Move>, p': Paced.State, out: seq<Out>) {
    var r := Paced.Run(m, p, moves);
    r.Some? && r.value.0 == p' && out == Lift(r.value.1)
  }

  // ---- What waits to be pushed ----

  datatype Waiting = Waiting(pending: LR.LogRanges, since: Option<Time>, latest: Time)

  /** What still waits once a node has got to `t`: nothing, if by then the oldest append has waited for the cap or the
      latest for the quiet window. */
  function StillWaiting(cfg: Clocks.Config, w: Waiting, t: Time): Waiting {
    if w.since.Some? && (w.since.value + cfg.maxLatency <= t || w.latest + cfg.window <= t)
    then w.(pending := LR.EMPTY, since := R.None)
    else w
  }

  // ---- Claims of delivery ----

  predicate IsDelivery(o: Out) {
    o.Did? && o.effect.Deliver?
  }

  predicate NoDeliveries(out: seq<Out>) {
    forall o :: o in out ==> !IsDelivery(o)
  }

  /** How often `k` is reported. */
  function Tally(out: seq<Out>, k: Key): nat {
    multiset(out)[Did(Node.Deliver(k))]
  }

  /** Each parked op of a subscribed log that did not fail to be stored is reported as often as the router accepts
      it, and nothing else is. */
  ghost predicate Reports(out: seq<Out>, fx: seq<Rt.Effect>, subs: set<Channel>, parked: OpsMap, failed: set<Key>) {
    forall k :: Tally(out, k) == if k in parked && k.log.channel in subs && k !in failed then Dl.Accepts(fx, k) else 0
  }

  lemma ReportsMore(out: seq<Out>, fx: seq<Rt.Effect>, more: seq<Out>, e: Rt.Effect, subs: set<Channel>, parked: OpsMap,
                    failed: set<Key>)
    requires Reports(out, fx, subs, parked, failed) && Reports(more, [e], subs, parked, failed)
    ensures Reports(out + more, fx + [e], subs, parked, failed)
  {
    hide LR.Has, Dl.Accepts;
    forall k ensures Tally(out + more, k) == Tally(out, k) + Tally(more, k)
             ensures Dl.Accepts(fx + [e], k) == Dl.Accepts(fx, k) + Dl.Accepts([e], k) {
      Dl.CountConcat(out, more, Did(Node.Deliver(k)));
      Dl.AcceptsSnoc(fx, e, k);
      Dl.AcceptsSnoc([], e, k);
      assert [] + [e] == [e];
      NothingAccepted(k);
    }
  }

  lemma NothingAccepted(k: Key)
    ensures Dl.Accepts([], k) == 0
  {
  }

  lemma NoneTallied(out: seq<Out>, k: Key)
    requires NoDeliveries(out)
    ensures Tally(out, k) == 0
  {
    var report := Did(Node.Deliver(k));
    assert IsDelivery(report);
    assert report !in multiset(out);
  }

  lemma TalliedAfter(before: seq<Out>, more: seq<Out>, k: Key)
    requires NoDeliveries(before)
    ensures Tally(before + more, k) == Tally(more, k)
  {
    NoneTallied(before, k);
    Dl.CountConcat(before, more, Did(Node.Deliver(k)));
  }

  // ---- Claims of sending ----

  /** A copy that one of the stores has. */
  predicate IsCopy(ops: OpsMap, k: Key, relay: OpsMap, ext: OpsMap) {
    k in ops && ((k in relay && ops[k] == relay[k]) || (k in ext && ops[k] == ext[k]))
  }

  /** The message is this node's, one of what the router decided: a Want as it is, or a Have of copies from the
      stores. */
  ghost predicate Vouched(msg: Node.Message, fx: seq<Rt.Effect>, id: NodeId, relay: OpsMap, ext: OpsMap) {
    && msg.sender == id
    && match msg.body
       case Want(w) => Rt.SendWant(w) in fx
       case Have(ops) => forall k :: k in ops ==> Rt.SendsKey(fx, k) && IsCopy(ops, k, relay, ext)
  }

  /** Whatever store calls fail, every Want decided on is put out, and every message put out was decided on. */
  ghost predicate PutsOut(out: seq<Out>, fx: seq<Rt.Effect>, id: NodeId, relay: OpsMap, ext: OpsMap) {
    && (forall w :: Rt.SendWant(w) in fx ==> Did(Node.Broadcast(Node.Message(id, Node.Want(w)))) in out)
    && (forall msg :: Did(Node.Broadcast(msg)) in out ==> Vouched(msg, fx, id, relay, ext))
  }

  lemma PutsOutMore(out: seq<Out>, fx: seq<Rt.Effect>, more: seq<Out>, fx': seq<Rt.Effect>, id: NodeId, relay: OpsMap,
                    ext: OpsMap)
    requires PutsOut(out, fx, id, relay, ext) && PutsOut(more, fx', id, relay, ext)
    ensures PutsOut(out + more, fx + fx', id, relay, ext)
  {
    hide IsCopy;
    forall msg | Did(Node.Broadcast(msg)) in out + more ensures Vouched(msg, fx + fx', id, relay, ext) {
      if Did(Node.Broadcast(msg)) in out {
        VouchedMore(msg, fx, fx + fx', id, relay, ext);
      } else {
        VouchedMore(msg, fx', fx + fx', id, relay, ext);
      }
    }
    hide Vouched;
  }

  lemma VouchedMore(msg: Node.Message, fx: seq<Rt.Effect>, all: seq<Rt.Effect>, id: NodeId, relay: OpsMap, ext: OpsMap)
    requires Vouched(msg, fx, id, relay, ext) && forall e :: e in fx ==> e in all
    ensures Vouched(msg, all, id, relay, ext)
  {
    hide LR.Has, IsCopy;
    if msg.body.Have? {
      forall k | k in msg.body.ops ensures Rt.SendsKey(all, k) {
        var e :| e in fx && e.SendHave? && LR.Has(e.ranges, k);
        assert e in all;
      }
    }
  }

  lemma NothingPutOut(id: NodeId, relay: OpsMap, ext: OpsMap)
    ensures PutsOut([], [], id, relay, ext) && PutsOut([StorageError], [], id, relay, ext)
  {
  }

  /** Reports of failures are no messages. */
  lemma ErrorsPutOut(errors: seq<Out>, fx: seq<Rt.Effect>, out: seq<Out>, id: NodeId, relay: OpsMap, ext: OpsMap)
    requires PutsOut(out, fx, id, relay, ext) && OnlyErrors(errors)
    ensures PutsOut(errors + out, fx, id, relay, ext)
  {
    hide Vouched;
  }

  predicate OnlyErrors(out: seq<Out>) {
    forall o :: o in out ==> o == StorageError
  }

  // ---- Frames of routing ----

  lemma HydratedWithin(relay: OpsMap, ext: OpsMap, r: LR.LogRanges)
    ensures Node.Hydrated(Within(relay, r), Within(ext, r), r) == Node.Hydrated(relay, ext, r)
  {
    hide LR.Has;
    var a, b := Node.Hydrated(Within(relay, r), Within(ext, r), r), Node.Hydrated(relay, ext, r);
    assert a.Keys == b.Keys;
  }

  // ---- The core ----

  class NodeCore {
    const cfg: Config
    const faults: nat -> Fault
    var calls: nat
    var router: Rt.State
    var ext: OpsMap
    var relay: OpsMap
    var subs: set<Channel>
    var held: LR.LogRanges
    var pending: LR.LogRanges
    var since: Option<Time>
    var latest: Time
    var now: Time
    var wantsDrawn: nat
    var havesDrawn: nat
    var dropped: nat
    var relayErrors: nat
    /** Usage reads that came out below the real usage. */
    ghost var misreads: nat

    /** Every store call succeeds and is answered in full. */
    ghost predicate Reliable() {
      forall n: nat :: faults(n).Fine?
    }

    /** No store call reports a failure, whatever the relay's answers leave out. */
    ghost predicate Answering() {
      forall n: nat :: !faults(n).Failed?
    }

    /** No read of the relay's usage comes out too low. */
    ghost predicate Forthright() {
      forall n: nat :: faults(n).Degraded? ==> faults(n).under == 0
    }

    ghost function Machine(): Node.Machine {
      Node.Machine(cfg.clock.router, cfg.relayCap)
    }

    ghost function Clk(): Clocks.Clock reads this {
      Clocks.Clock(router, now, pending, since, latest, wantsDrawn, havesDrawn)
    }

    ghost function Abs(): Node.State reads this {
      Node.State(router, relay, ext, subs)
    }

    /** The cached snapshot is the stores' contents, and the router has it; its open channels are the
        subscriptions; what is pending is in the application's store. */
    ghost predicate Synced()
      reads `held, `router, `relay, `ext, `subs, `pending
    {
      && held == Node.HeldUnion(relay, ext) && router.held == held && router.openChannels == subs
      && Paced.PendingStored(pending, ext)
    }

    /** What remains of that when the relay's answers fall short: the snapshot claims everything in the
        application's store, and nothing that neither store has. */
    ghost predicate Grounded()
      reads `held, `router, `relay, `ext, `subs, `pending
    {
      && Claims(held, relay, ext) && router.held == held && router.openChannels == subs
      && Paced.PendingStored(pending, ext)
    }

    lemma SyncedIsGrounded()
      requires Synced()
      ensures Grounded()
    {
      hide LR.Has, LR.Clean;
    }

    /** The node together with what it has yet to push. */
    ghost function Pace(): Paced.State reads this {
      Paced.State(Abs(), pending)
    }

    /** Initial subscriptions are open from the start, and nothing is known to be held. */
    constructor (id: NodeId, cfg: Config, faults: nat -> Fault, subs: set<Channel>, ext: OpsMap, relay: OpsMap)
      ensures Abs() == Node.State(Rt.New(id, LR.EMPTY, subs), relay, ext, subs)
      ensures held == LR.EMPTY && pending == LR.EMPTY && since == R.None && now == 0
      ensures this.cfg == cfg && this.faults == faults
    {
      this.cfg, this.faults, this.calls := cfg, faults, 0;
      this.router := Rt.New(id, LR.EMPTY, subs);
      this.ext, this.relay, this.subs := ext, relay, subs;
      this.held, this.pending, this.since := LR.EMPTY, LR.EMPTY, R.None;
      this.latest, this.now, this.wantsDrawn, this.havesDrawn := 0, 0, 0, 0;
      this.dropped, this.relayErrors, this.misreads := 0, 0, 0;
    }

    // ---- Store calls ----

    method Draw() returns (f: Fault)
      modifies this`calls
      ensures f == faults(old(calls)) && calls == old(calls) + 1
      ensures Reliable() ==> f.Fine?
      ensures Answering() ==> !f.Failed?
      ensures Forthright() && f.Degraded? ==> f.under == 0
    {
      f := faults(calls);
      calls := calls + 1;
    }

    /** A call to the relay store; a failure is counted. */
    method DrawRelay() returns (f: Fault)
      modifies this`calls, this`relayErrors
      ensures f == faults(old(calls)) && calls == old(calls) + 1
      ensures relayErrors == old(relayErrors) + if f.Failed? then 1 else 0
      ensures Reliable() ==> f.Fine?
      ensures Answering() ==> !f.Failed?
      ensures Forthright() && f.Degraded? ==> f.under == 0
    {
      f := Draw();
      if f.Failed? {
        relayErrors := relayErrors + 1;
      }
    }

    /** A call to the application's store, which answers in full when it answers. */
    method DrawExt() returns (f: Fault)
      modifies this`calls
      ensures !f.Degraded? && (Answering() || Reliable() ==> f.Fine?)
    {
      f := Draw();
      if f.Degraded? {
        f := Fine;
      }
    }

    method ExtIngest(k: Key, op: Op) returns (ok: bool)
      modifies this`ext, this`calls
      ensures Reliable() || Answering() ==> ok
      ensures ok ==> ext == Ingest(old(ext), k, op)
      ensures ext == old(ext) || ext == Ingest(old(ext), k, op)
    {
      var f := DrawExt();
      ext := IngestUnder(f, ext, k, op);
      ok := f.Fine?;
    }

    method RelayIngest(k: Key, op: Op) returns (ok: bool)
      modifies this`relay, this`calls, this`relayErrors
      ensures Reliable() ==> ok && relay == Ingest(old(relay), k, op)
      ensures relay == old(relay) || relay == Ingest(old(relay), k, op)
    {
      var f := DrawRelay();
      relay := IngestUnder(f, relay, k, op);
      ok := !f.Failed?;
    }

    method RelayEvict(r: LR.LogRanges) returns (ok: bool)
      modifies this`relay, this`calls, this`relayErrors
      ensures Answering() ==> ok
      ensures Reliable() ==> ok && relay == Evict(old(relay), r)
      ensures Thinned(old(relay), relay, r)
    {
      var f := DrawRelay();
      ok := !f.Failed?;
      hide EvictUnder;
      EvictThins(f, relay, r);
      EvictFine(f, relay, r);
      relay := EvictUnder(f, relay, r);
    }

    method RelayEvictPayloads(r: LR.LogRanges) returns (ok: bool)
      modifies this`relay, this`calls, this`relayErrors
      ensures Reliable() ==> ok && relay == EvictPayloads(old(relay), r)
      ensures Bared(old(relay), relay, r)
    {
      var f := DrawRelay();
      ok := !f.Failed?;
      hide EvictPayloadsUnder;
      EvictBares(f, relay, r);
      EvictFine(f, relay, r);
      relay := EvictPayloadsUnder(f, relay, r);
    }

    method RelayFetch(r: LR.LogRanges) returns (ops: Option<OpsMap>)
      modifies this`calls, this`relayErrors
      ensures Reliable() ==> ops == R.Some(Within(relay, r))
      ensures ops.Some? ==> IsPart(ops.value, relay, r)
    {
      hide LR.Has;
      var f := DrawRelay();
      ops := if f.Failed? then R.None else R.Some(Within(Seen(f, relay), r));
    }

    method ExtFetch(r: LR.LogRanges) returns (ops: Option<OpsMap>)
      modifies this`calls
      ensures Reliable() || Answering() ==> ops.Some?
      ensures ops.Some? ==> ops.value == Within(ext, r)
    {
      var f := DrawExt();
      ops := if f.Fine? then R.Some(Within(ext, r)) else R.None;
    }

    // ---- Reconciling the held snapshot ----

    /** Re-read the touched logs; on a failure the stale snapshot stands. */
    method ReconcileTouched(logs: set<Log>) returns (out: seq<Out>)
      modifies this`held, this`router, this`calls, this`relayErrors
      ensures OnlyErrors(out)
      ensures router == old(router).(held := router.held)
      ensures Reliable() && RightElsewhere(old(held), relay, ext, logs) ==>
                out == [] && held == Node.HeldUnion(relay, ext) && router == old(router).(held := held)
      ensures Answering() && ClaimsElsewhere(old(held), relay, ext, logs) ==>
                Claims(held, relay, ext) && router.held == held
    {
      hide RightElsewhere, ClaimsElsewhere, Claims, Node.HeldUnion, Seen, Reliable, Answering;
      var f := DrawExt();
      if f.Failed? { return [StorageError]; }
      f := DrawRelay();
      if f.Failed? { return []; }
      SeenIsPart(f, relay);
      SeenFine(f, relay);
      held := Reread(held, Seen(f, relay), ext, logs, relay);
      router := router.(held := held);
      out := [];
    }

    /** Re-read everything. */
    method ReconcileAll() returns (out: seq<Out>)
      modifies this`held, this`router, this`calls, this`relayErrors
      ensures OnlyErrors(out)
      ensures router == old(router).(held := router.held)
      ensures Reliable() ==> out == [] && held == Node.HeldUnion(relay, ext) && router == old(router).(held := held)
      ensures Answering() ==> Claims(held, relay, ext) && router.held == held
    {
      hide Node.HeldUnion, Claims, Seen, Reliable, Answering;
      var f := DrawExt();
      if f.Failed? { return [StorageError]; }
      f := DrawRelay();
      if f.Failed? { return []; }
      SeenIsPart(f, relay);
      SeenFine(f, relay);
      held := RereadAll(Seen(f, relay), ext, relay);
      router := router.(held := held);
      out := [];
    }

    // ---- Routing ----

    /** Merge what both stores have; a failed relay fetch shrinks it silently, a failed one from the
        application's store is reported. Whatever fails, what is left are copies the stores have, within the ranges;
        and all of the application's are there, with their payloads, when its own fetch succeeded. */
    method Hydrate(r: LR.LogRanges) returns (ops: OpsMap, out: seq<Out>)
      modifies this`calls, this`relayErrors
      ensures OnlyErrors(out) && (Answering() ==> out == [])
      ensures forall k :: k in ops ==> LR.Has(r, k) && IsCopy(ops, k, relay, ext)
      ensures out == [] ==> forall k :: k in ext && LR.Has(r, k) ==>
                k in ops && (ext[k].payload.Some? ==> ops[k].payload.Some?)
      ensures Reliable() ==> out == [] && ops == Node.Hydrated(relay, ext, r)
    {
      hide LR.Has, Answering, Reliable;
      out := [];
      var mine := RelayFetch(r);
      var theirs := ExtFetch(r);
      if theirs.None? {
        out := [StorageError];
      }
      ops := Node.Hydrated(if mine.Some? then mine.value else map[], if theirs.Some? then theirs.value else map[], r);
      HydratedWithin(relay, ext, r);
    }

    method RouteEffect(e: Rt.Effect, parked: OpsMap, failed: set<Key>) returns (out: seq<Out>)
      modifies this`calls, this`relayErrors
      ensures Reports(out, [e], subs, parked, failed)
      ensures PutsOut(out, [e], router.id, relay, ext)
      ensures Reliable() && failed == {} ==> out == Lift(Node.RouteOne(Abs(), e, parked))
      ensures !e.Accept? ==> NoDeliveries(out)
    {
      hide LR.Has, Reports, PutsOut, Reliable, Answering;
      match e {
        case Accept(novel) =>
          out := DeliverStored(subs, novel, parked, failed);
          DeliveriesPutNothingOut(out, e, router.id, relay, ext);
        case SendWant(interest) =>
          out := [Did(Node.Broadcast(Node.Message(router.id, Node.Want(interest))))];
          WantPutsOut(interest, router.id, relay, ext);
          QuietReports(out, e, subs, parked, failed);
        case SendHave(r) =>
          hide Node.Hydrated;
          var ops;
          ops, out := Hydrate(r);
          HavePutsOut(ops, out, r, router.id, relay, ext);
          if ops != map[] {
            out := out + [Did(Node.Broadcast(Node.Message(router.id, Node.Have(ops))))];
          }
          QuietReports(out, e, subs, parked, failed);
      }
    }

    /** Turn the router's decisions into output, in effect order. */
    method RouteFx(fx: seq<Rt.Effect>, parked: OpsMap, failed: set<Key>) returns (out: seq<Out>)
      modifies this`calls, this`relayErrors
      ensures Reports(out, fx, subs, parked, failed)
      ensures PutsOut(out, fx, router.id, relay, ext)
      ensures Reliable() && failed == {} ==> out == Lift(Node.Route(Abs(), fx, parked))
      ensures (forall i :: 0 <= i < |fx| ==> !fx[i].Accept?) ==> NoDeliveries(out)
    {
      hide Node.RouteOne, Reports, PutsOut, Reliable;
      out := [];
      NothingReported(subs, parked, failed);
      NothingPutOut(router.id, relay, ext);
      ghost var n := Abs();
      for i := 0 to |fx|
        invariant Reports(out, fx[..i], subs, parked, failed)
        invariant PutsOut(out, fx[..i], router.id, relay, ext)
        invariant Reliable() && failed == {} ==> out == Lift(Node.Route(n, fx[..i], parked))
        invariant (forall j :: 0 <= j < i ==> !fx[j].Accept?) ==> NoDeliveries(out)
      {
        NM.RouteSnoc(n, fx[..i], fx[i], parked);
        assert fx[..i + 1] == fx[..i] + [fx[i]];
        var more := RouteEffect(fx[i], parked, failed);
        ReportsMore(out, fx[..i], more, fx[i], subs, parked, failed);
        PutsOutMore(out, fx[..i], more, [fx[i]], router.id, relay, ext);
        LiftConcat(Node.Route(n, fx[..i], parked), Node.RouteOne(n, fx[i], parked));
        out := out + more;
      }
      assert fx[..|fx|] == fx;
    }

    // ---- Advancing ----

    /** Take a router action, which must be one the router allows. */
    method StepRouter(a: Rt.Action) returns (fx: seq<Rt.Effect>)
      requires Rt.Step(cfg.clock.router, router, a).Some?
      modifies this`router
      ensures Rt.Step(cfg.clock.router, old(router), a) == R.Some((router, fx))
    {
      hide Rt.Step;
      var r := RM.Transition(cfg.clock.router, router, a);
      router := r.value.0;
      fx := r.value.1;
    }

    /** `next_deadline`: absolute, in shell time. With nothing due now, nothing is due before then: until then
        advancing only lets time pass and puts out nothing. */
    method NextDeadline() returns (at: Option<Time>)
      ensures at == Clocks.NextDeadline(cfg.clock, Clk())
      ensures Clocks.Positive(cfg.clock) && !Clocks.Due(cfg.clock, Clk()) ==>
                forall t: Time :: now < t && (at.Some? ==> t < at.value) ==> QuietUntil(t)
    {
      hide Clocks.Due, Clocks.Positive, QuietUntil;
      forall t: Time
        | Clocks.Positive(cfg.clock) && !Clocks.Due(cfg.clock, Clk()) && now < t
          && (Clocks.NextDeadline(cfg.clock, Clk()).Some? ==> t < Clocks.NextDeadline(cfg.clock, Clk()).value)
        ensures QuietUntil(t)
      {
        IsQuietUntil(t);
      }
      var due := Rt.NextDue(router);
      at := Clocks.Earlier(
        if due.Some? then R.Some(now + due.value) else R.None,
        if since.Some? then R.Some(Clocks.Deadline(cfg.clock, since.value, latest)) else R.None);
    }

    ghost predicate QuietUntil(t: Time) reads this {
      && Clocks.Positive(cfg.clock) && now < t && Rt.MayTick(router, t - now)
      && Clocks.Advance(cfg.clock, Clk(), t) == (Clocks.TickedBy(Clk(), t - now), [])
    }

    lemma IsQuietUntil(t: Time)
      requires Clocks.Positive(cfg.clock) && !Clocks.Due(cfg.clock, Clk()) && now < t
      requires Clocks.NextDeadline(cfg.clock, Clk()).Some? ==> t < Clocks.NextDeadline(cfg.clock, Clk()).value
      ensures QuietUntil(t)
    {
      hide Clocks.Due, Clocks.Positive, Clocks.Advance, Clocks.NextDeadline, Rt.MayTick, Rt.Ticked;
      Clocks.QuietUntilDeadline(cfg.clock, Clk(), t);
    }

    method FlushPush() returns (fx: seq<Rt.Effect>)
      modifies this`router, this`pending, this`since
      ensures (Clk(), fx) == Clocks.FlushPush(cfg.clock, old(Clk()))
    {
      hide Rt.Step, Rt.Pushed, LR.IsEmpty;
      var ranges := pending;
      ghost var cl := Clk();
      pending := LR.EMPTY;
      since := R.None;
      if LR.IsEmpty(ranges) {
        fx := [];
      } else {
        Clocks.FlushIsPush(cfg.clock, cl);
        fx := StepRouter(Rt.Push(ranges));
      }
    }

    method FireWant() returns (fx: seq<Rt.Effect>)
      requires Rt.WantDue(router)
      modifies this`router, this`wantsDrawn
      ensures (Clk(), fx) == Clocks.FireWant(cfg.clock, old(Clk()))
    {
      hide Rt.Step, Rt.FiredWant, Rt.WantDue;
      Clocks.FireWantSteps(cfg.clock, Clk());
      fx := StepRouter(Rt.FireWant);
      var next := cfg.clock.wantInterval(wantsDrawn);
      wantsDrawn := wantsDrawn + 1;
      var none := StepRouter(Rt.ArmWantTimer(next));
    }

    method FireHave() returns (fx: seq<Rt.Effect>)
      requires Rt.HaveDue(router)
      modifies this`router, this`havesDrawn
      ensures (Clk(), fx) == Clocks.FireHave(cfg.clock, old(Clk()))
    {
      hide Rt.Step, Rt.FiredHave, Rt.HaveDue, LR.IsEmpty, Rt.NetworkAsk;
      Clocks.FireHaveSteps(cfg.clock, Clk());
      fx := StepRouter(Rt.FireHave);
      if !LR.IsEmpty(Rt.NetworkAsk(router)) {
        var next := cfg.clock.haveInterval(havesDrawn);
        havesDrawn := havesDrawn + 1;
        var none := StepRouter(Rt.ArmHaveTimer(next));
      }
    }

    /** Fire the one thing that comes first among those due. */
    method FireFirst() returns (fx: seq<Rt.Effect>)
      requires Clocks.Due(cfg.clock, Clk())
      modifies this`router, this`pending, this`since, this`wantsDrawn, this`havesDrawn
      ensures (Clk(), fx) == Clocks.FireOne(cfg.clock, old(Clk()))
    {
      hide Clocks.FlushPush, Clocks.FireWant, Clocks.FireHave;
      if since.Some? && Clocks.Deadline(cfg.clock, since.value, latest) <= now {
        fx := FlushPush();
      } else if Rt.WantDue(router) {
        fx := FireWant();
      } else {
        fx := FireHave();
      }
    }

    method TickToward(target: Time)
      requires !Clocks.Due(cfg.clock, Clk()) && now < target
      modifies this`router, this`now
      ensures Rt.MayTick(old(router), Clocks.TickLength(cfg.clock, old(Clk()), target))
      ensures Clk() == Clocks.TickedBy(old(Clk()), Clocks.TickLength(cfg.clock, old(Clk()), target))
    {
      hide Rt.Ticked, Rt.MayTick, Clocks.Due;
      Clocks.TickAllowed(cfg.clock, Clk(), target);
      ghost var length := Clocks.TickLength(cfg.clock, Clk(), target);
      var step := Clocks.Least(target - now, Rt.NextDue(router));
      if since.Some? {
        step := Clocks.Least(step, R.Some(Clocks.Deadline(cfg.clock, since.value, latest) - now));
      }
      var none := StepRouter(Rt.Tick(step));
      now := now + step;
    }

    method FireAndRoute(ghost n: Node.State, ghost target: Time) returns (out: seq<Out>, ghost fx: seq<Rt.Effect>)
      requires Clocks.Positive(cfg.clock) && Clocks.Due(cfg.clock, Clk())
      requires n.router.id == router.id && n.relay == relay && n.ext == ext && n.subs == subs
      modifies this`router, this`pending, this`since, this`wantsDrawn, this`havesDrawn, this`calls, this`relayErrors
      ensures (Clk(), fx) == Clocks.FireOne(cfg.clock, old(Clk()))
      ensures Reliable() ==> out == Lift(Node.Route(n, fx, map[]))
      ensures PutsOut(out, fx, n.router.id, relay, ext)
      ensures NoDeliveries(out) && router.id == n.router.id
    {
      hide PutsOut, Reports, Clocks.Due, Clocks.FireOne, Clocks.DueCount, Clocks.Positive, Reliable, Lift, Node.Route, Clocks.Advance;
      Clocks.OneFire(cfg.clock, Clk(), target);
      var effects := FireFirst();
      fx := effects;
      ghost var fired := Abs();
      out := RouteFx(effects, map[], {});
      NM.RouteSame(fired, n, fx, map[]);
    }

    /** The tick-and-fire loop. It ends where `Clocks.Advance` does, having put out what that decides; and that is
        a run of the node machine with its pushes put off, of ticks, fires, re-arms and flushes that the machine
        allows. */
    method AdvanceTo(target: Time) returns (out: seq<Out>)
      requires Clocks.Positive(cfg.clock)
      modifies this`router, this`now, this`pending, this`since, this`wantsDrawn, this`havesDrawn, this`calls,
               this`relayErrors
      ensures Clk() == Clocks.Advance(cfg.clock, old(Clk()), target).0
      ensures Paced.Runs(Machine(), old(Pace()), Paced.AdvanceMoves(cfg.clock, old(Clk()), target), Pace(),
                         Node.Route(old(Abs()), Clocks.Advance(cfg.clock, old(Clk()), target).1, map[]))
      ensures Reliable() ==> out == Lift(Node.Route(old(Abs()), Clocks.Advance(cfg.clock, old(Clk()), target).1, map[]))
      ensures PutsOut(out, Clocks.Advance(cfg.clock, old(Clk()), target).1, router.id, relay, ext)
      ensures NoDeliveries(out) && router.id == old(router.id)
    {
      hide Clocks.Advance, Clocks.Positive, Reliable, Lift, Node.Route, Paced.Runs, Paced.AdvanceMoves, PutsOut;
      AdvanceRuns(target);
      out := TickAndFire(target);
    }

    method TickAndFire(target: Time) returns (out: seq<Out>)
      requires Clocks.Positive(cfg.clock)
      modifies this`router, this`now, this`pending, this`since, this`wantsDrawn, this`havesDrawn, this`calls,
               this`relayErrors
      ensures Clk() == Clocks.Advance(cfg.clock, old(Clk()), target).0
      ensures Reliable() ==> out == Lift(Node.Route(old(Abs()), Clocks.Advance(cfg.clock, old(Clk()), target).1, map[]))
      ensures PutsOut(out, Clocks.Advance(cfg.clock, old(Clk()), target).1, router.id, relay, ext)
      ensures NoDeliveries(out) && router.id == old(router.id)
    {
      hide Clocks.Advance, Clocks.Due, Clocks.FireOne, Clocks.DueCount, Clocks.TickLength, Rt.Ticked, Rt.MayTick,
           Clocks.Positive, Reliable, Lift, Node.Route, PutsOut;
      out := [];
      ghost var start, n := Clk(), Abs();
      NothingPutOut(router.id, relay, ext);
      ghost var done: seq<Rt.Effect> := [];
      EmptyRoute(n);
      assert done + Clocks.Advance(cfg.clock, start, target).1 == Clocks.Advance(cfg.clock, start, target).1;
      while true
        invariant Clocks.Advance(cfg.clock, start, target)
               == (Clocks.Advance(cfg.clock, Clk(), target).0, done + Clocks.Advance(cfg.clock, Clk(), target).1)
        invariant Reliable() ==> out == Lift(Node.Route(n, done, map[]))
        invariant PutsOut(out, done, n.router.id, relay, ext)
        invariant NoDeliveries(out) && router.id == n.router.id
        decreases Clocks.Ahead(Clk(), target), Clocks.DueCount(cfg.clock, Clk())
      {
        ghost var cl := Clk();
        if IsDue() {
          Clocks.OneFire(cfg.clock, cl, target);
          var more; ghost var fx;
          more, fx := FireAndRoute(n, target);
          RoutedMore(n, done, fx);
          PutsOutMore(out, done, more, fx, n.router.id, relay, ext);
          Associate(done, fx, Clocks.Advance(cfg.clock, Clk(), target).1);
          out := out + more;
          done := done + fx;
        } else {
          if target <= now {
            Clocks.Arrived(cfg.clock, cl, target);
            assert done + [] == done;
            break;
          }
          Clocks.OneTick(cfg.clock, cl, target);
          Clocks.TickAllowed(cfg.clock, cl, target);
          Clocks.TickFrame(cl, Clocks.TickLength(cfg.clock, cl, target));
          TickToward(target);
        }
      }
    }

    lemma AdvanceRuns(target: Time)
      requires Clocks.Positive(cfg.clock)
      ensures var p := Clocks.Advance(cfg.clock, Clk(), target);
              Paced.Runs(Machine(), Pace(), Paced.AdvanceMoves(cfg.clock, Clk(), target),
                         Paced.State(Node.State(p.0.router, relay, ext, subs), p.0.pending), Node.Route(Abs(), p.1, map[]))
    {
      hide Clocks.Advance, Paced.AdvanceMoves, Paced.Runs, Clocks.Positive, Node.Route;
      Paced.AdvanceRuns(cfg.clock, Machine(), Abs(), Clk(), target);
    }

    ghost predicate GroundedAt(cl: Clocks.Clock) reads this {
      cl.router.held == held && cl.router.openChannels == subs && Paced.PendingStored(cl.pending, ext)
    }

    /** What the node is once the shell has caught up with `at`, and what it has put out by then. */
    ghost function CaughtUp(at: Time): Node.State
      requires Clocks.Positive(cfg.clock)
      reads this
    {
      Node.State(Clocks.Advance(cfg.clock, Clk(), at).0.router, relay, ext, subs)
    }

    ghost function CatchUpOut(at: Time): seq<Out>
      requires Clocks.Positive(cfg.clock)
      reads this
    {
      Lift(Node.Route(Abs(), Clocks.Advance(cfg.clock, Clk(), at).1, map[]))
    }

    /** What the router decides while catching up. */
    ghost function CatchUpFx(at: Time): seq<Rt.Effect>
      requires Clocks.Positive(cfg.clock)
      reads this
    {
      Clocks.Advance(cfg.clock, Clk(), at).1
    }

    ghost function CaughtClk(at: Time): Clocks.Clock
      requires Clocks.Positive(cfg.clock)
      reads this
    {
      Clocks.Advance(cfg.clock, Clk(), at).0
    }

    /** The moves that takes: ticks, fires, re-arms and flushes. */
    ghost function CatchUpMoves(at: Time): seq<Paced.Move>
      requires Clocks.Positive(cfg.clock)
      reads this
    {
      Paced.AdvanceMoves(cfg.clock, Clk(), at)
    }

    /** Catching up is a run of the node machine: nothing in it is on anyone else's behalf, and its ticks add up to
        the time that passes. */
    lemma CatchUpRan(at: Time)
      requires Clocks.Positive(cfg.clock)
      ensures Ran(Machine(), Pace(), CatchUpMoves(at), Paced.State(CaughtUp(at), CaughtClk(at).pending), CatchUpOut(at))
      ensures Paced.Inputs(CatchUpMoves(at)) == [] && Paced.Elapsed(CatchUpMoves(at)) == CaughtClk(at).now - now
    {
      hide Clocks.Advance, Clocks.Positive, Clocks.Due, Lift, Node.Route, Paced.Run, Paced.AdvanceMoves, Paced.Inputs,
           Paced.Elapsed;
      AdvanceRuns(at);
      Paced.AdvanceIsOwn(cfg.clock, Clk(), at);
      Clocks.AdvanceEnds(cfg.clock, Clk(), at);
    }

    ghost function Waits(): Waiting
      reads `pending, `since, `latest
    {
      Waiting(pending, since, latest)
    }

    /** What waits to be pushed once the shell has caught up with `at`. */
    ghost function StillWaits(at: Time): Waiting
      reads `pending, `since, `latest, `now
    {
      StillWaiting(cfg.clock, Waits(), if now <= at then at else now)
    }

    lemma CaughtUpWaits(at: Time)
      requires Clocks.Positive(cfg.clock)
      ensures StillWaits(at) == Waiting(CaughtClk(at).pending, CaughtClk(at).since, CaughtClk(at).latest)
    {
      hide Clocks.Advance, Clocks.Positive;
      Clocks.PushedWhenOwed(cfg.clock, Clk(), at);
    }

    /** Every handler first catches up with the time it is called at. */
    method CatchUp(at: Time) returns (out: seq<Out>)
      requires Clocks.Positive(cfg.clock)
      modifies this`router, this`now, this`pending, this`since, this`wantsDrawn, this`havesDrawn, this`calls,
               this`relayErrors
      ensures Abs() == old(CaughtUp(at)) && Clk() == old(CaughtClk(at)) && Waits() == old(StillWaits(at))
      ensures Reliable() ==> Ran(Machine(), old(Pace()), old(CatchUpMoves(at)), Pace(), out)
      ensures Reliable() ==> out == old(CatchUpOut(at))
      ensures PutsOut(out, old(CatchUpFx(at)), router.id, relay, ext)
      ensures NoDeliveries(out)
      ensures old(Synced()) ==> Synced()
      ensures old(Grounded()) ==> Grounded()
    {
      hide PutsOut, Clocks.Advance, Clocks.Positive, Reliable, Lift, Node.Route, Node.HeldUnion, Paced.PendingStored, Claims,
           Paced.Run, Paced.AdvanceMoves;
      if Synced() {
        SyncedIsGrounded();
      }
      GroundedAdvance(at);
      CatchUpRan(at);
      CaughtUpWaits(at);
      out := AdvanceTo(at);
    }

    /** Advancing leaves the snapshot, the open channels and what is pending in step with the stores. */
    lemma GroundedAdvance(target: Time)
      requires Clocks.Positive(cfg.clock)
      ensures Grounded() ==> GroundedAt(Clocks.Advance(cfg.clock, Clk(), target).0)
    {
      hide Clocks.Advance, LR.Has, LR.Clean;
      Clocks.AdvanceFrame(cfg.clock, Clk(), target);
      Clocks.NothingPending();
    }

    predicate IsDue()
      reads this
      ensures IsDue() <==> Clocks.Due(cfg.clock, Clk())
    {
      (since.Some? && Clocks.Deadline(cfg.clock, since.value, latest) <= now) || Rt.WantDue(router) || Rt.HaveDue(router)
    }

    // ---- Taking in what a Have carried ----

    /** What an op would add, or more. */
    method RelayDelta(k: Key, op: Op) returns (units: Option<nat>)
      modifies this`calls, this`relayErrors
      ensures Reliable() ==> units == R.Some(IngestDelta(relay, k, op))
      ensures units.Some? ==> IngestDelta(relay, k, op) <= units.value
    {
      hide IngestDelta;
      var f := DrawRelay();
      units := if f.Failed? then R.None else R.Some(DeltaUnder(f, IngestDelta(relay, k, op)));
    }

    /** The real usage, or less; a read that comes out below it is noted. */
    method RelayUsage() returns (units: Option<nat>)
      modifies this`calls, this`relayErrors, this`misreads
      ensures Reliable() ==> units == R.Some(Usage(relay)) && misreads == old(misreads)
      ensures old(misreads) <= misreads && (Forthright() ==> misreads == old(misreads))
      ensures units.Some? ==> units.value <= Usage(relay)
      ensures units.Some? ==> (units.value == Usage(relay) <==> misreads == old(misreads))
    {
      hide Usage;
      var f := DrawRelay();
      if f.Failed? { return R.None; }
      var u := UsageLoop(relay);
      units := R.Some(UsageUnder(f, u));
      if units.value < u {
        misreads := misreads + 1;
      }
    }

    /** Every parked op: to the application's store if subscribed, else to the relay if there is room. Usage is
        read once and tracked, and read again after any relay failure. The cap is kept unless a usage read comes
        out too low. */
    method IngestParked(parked: OpsMap) returns (failed: set<Key>, out: seq<Out>)
      modifies this`ext, this`relay, this`calls, this`relayErrors, this`misreads
      ensures OnlyErrors(out) && |failed| <= |out| && (Answering() ==> failed == {})
      ensures Ingested(subs, old(relay), old(ext), relay, ext, failed, SortedKeys(parked.Keys), |SortedKeys(parked.Keys)|,
                       parked)
      ensures CapKept(cfg.relayCap, Forthright(), old(relay), old(misreads), relay, misreads)
      ensures Reliable() ==> failed == {} && out == []
      ensures Reliable() ==> IngestedAll(cfg.relayCap, subs, old(relay), old(ext), relay, ext, parked)
    {
      hide Ingested, IngestedAll, GoesOn, Usage, Node.IngestAll, Reliable, Answering, Forthright, Ingest, IngestDelta,
           Node.IngestOne;
      failed, out := {}, [];
      var order := SortedKeys(parked.Keys);
      var usage: Option<nat> := R.None;
      ghost var relay0, ext0, misreads0 := relay, ext, misreads;
      NothingIngested(cfg.relayCap, subs, relay, ext, order, parked);
      for i := 0 to |order|
        invariant OnlyErrors(out) && |failed| <= |out| && (Answering() ==> failed == {})
        invariant Ingested(subs, relay0, ext0, relay, ext, failed, order, i, parked)
        invariant CapKept(cfg.relayCap, Forthright(), relay0, misreads0, relay, misreads)
        invariant Tracked(usage, misreads0, relay, misreads)
        invariant Reliable() ==> failed == {} && out == [] && (usage.Some? ==> usage.value == Usage(relay))
        invariant Reliable() ==> GoesOn(cfg.relayCap, subs, relay0, ext0, relay, ext, order, i, parked)
      {
        var k := order[i];
        var op := parked[k];
        ghost var relayWas, extWas, failedWas := relay, ext, failed;
        if k.log.channel in subs {
          var ok := ExtIngest(k, op);
          if !ok {
            failed := failed + {k};
            out := out + [StorageError];
          }
          IngestedExt(subs, relay0, ext0, relay, extWas, ext, failedWas, order, i, parked, ok);
          if ok {
            GoesOnExt(cfg.relayCap, subs, relay0, ext0, relay, extWas, order, i, parked);
          }
        } else {
          usage := ParkOne(k, op, usage, misreads0);
          IngestedRelay(subs, relay0, ext0, relayWas, relay, ext, failed, order, i, parked);
          GoesOnParked(cfg.relayCap, subs, relay0, ext0, relayWas, relay, ext, order, i, parked);
        }
      }
      AllIngested(cfg.relayCap, subs, relay0, ext0, relay, ext, order, parked);
    }

    /** One op for the relay, if it has room; `usage` is what is known of the units used, or must be read. */
    method ParkOne(k: Key, op: Op, usage: Option<nat>, ghost misreads0: nat) returns (usage': Option<nat>)
      requires Tracked(usage, misreads0, relay, misreads)
      requires Reliable() && usage.Some? ==> usage.value == Usage(relay)
      modifies this`relay, this`calls, this`relayErrors, this`misreads
      ensures relay == old(relay) || relay == Ingest(old(relay), k, op)
      ensures Tracked(usage', misreads0, relay, misreads)
      ensures old(misreads) <= misreads && (Forthright() ==> misreads == old(misreads))
      ensures misreads == misreads0 ==> relay == old(relay) || Usage(relay) <= cfg.relayCap
      ensures Reliable() ==> usage' == R.Some(Usage(relay))
                             && relay == ParkedRelay(cfg.relayCap, old(relay), k, op)
    {
      hide Usage, Ingest, IngestDelta, Reliable, Answering;
      usage' := usage;
      DeltaIsGrowth(relay, k, op);
      var units := RelayDelta(k, op);
      if units.None? {
        return R.None;
      }
      if usage'.None? {
        usage' := RelayUsage();
        if usage'.None? {
          return;
        }
      }
      if usage'.value + units.value > cfg.relayCap {
        return;
      }
      var ok := RelayIngest(k, op);
      usage' := if ok then R.Some(usage'.value + units.value) else R.None;
    }

    // ---- Receiving ----

    /** A Have: every op is stored first, then the snapshot is reconciled, then the router's decisions go out. Whatever
        fails, each op that arrived, of a subscribed log, not held before and stored, is reported once, and nothing
        else is; and what was not stored was reported as an error. */
    method ReceiveHave(from: NodeId, parked: OpsMap) returns (out: seq<Out>, ghost failed: set<Key>)
      requires from != router.id
      modifies this`router, this`held, this`ext, this`relay, this`calls, this`relayErrors, this`misreads
      ensures Reliable() && old(Synced()) ==>
                Synced() && HaveReceived(Machine(), old(Abs()), from, parked, Abs(), out)
      ensures Answering() && old(Grounded()) ==> Grounded()
      ensures Grows(old(relay), relay) && Grows(old(ext), ext)
      ensures CapKept(cfg.relayCap, Forthright(), old(relay), old(misreads), relay, misreads)
      ensures Honest(out, old(router.held), subs, parked, failed, ext)
      ensures PutsOut(out, HaveFx(cfg.clock.router, old(router), from, parked), router.id, relay, ext)
      ensures (Answering() ==> failed == {}) && |failed| <= multiset(out)[StorageError]
      ensures router.id == old(router.id)
    {
      hide Reliable, Answering, Forthright, Rt.Step, Node.Route, Lift, Node.HeldUnion, Node.IngestAll, LR.Has, Ingested,
           IngestedAll, Reports, RightElsewhere, Usage, HaveReceived, Honest, LR.OfKeys, Paced.PendingStored, Claims,
           ClaimsElsewhere, Grows, CapKept, PutsOut, OnlyErrors, Stored;
      ghost var n := Abs();
      var keys := SortedKeys(parked.Keys);
      var ranges := H.RangesOf(keys);
      NM.SameKeys(keys, parked);
      HaveIsTaken(cfg.clock.router, router, from, ranges);
      var fx := StepRouter(Rt.RecvHave(from, ranges));
      ghost var routed := router;
      HaveTaken(cfg.clock.router, n.router, from, ranges, routed, fx);
      var lost, errors := IngestParked(parked);
      failed := lost;
      IngestedMeans(subs, n.relay, n.ext, relay, ext, failed, keys, parked);
      RightAfterIngest(held, subs, n.relay, n.ext, relay, ext, failed, keys, parked);
      Paced.PendingStays(pending, n.ext, ext);
      var more := ReconcileTouched(LogsOf(parked));
      var sent := RouteFx(fx, parked, lost);
      out := errors + more + sent;
      ErrorsCounted(errors, more, sent);
      ErrorsPutOut(errors + more, fx, sent, router.id, relay, ext);
      ReportsAreHonest(cfg.clock.router, n.router, from, ranges, routed, fx, errors + more, sent, subs, parked, failed, ext);
      if Reliable() && old(Synced()) {
        assert errors + more + sent == sent;
        HaveReceivedIs(Machine(), n, from, parked, routed, fx, Abs(), out);
      }
    }

    /** A Want: pass it on if it asks for more, and arm the Have timer if this node can answer something. */
    method ReceiveWant(from: NodeId, interest: I.Interest) returns (out: seq<Out>)
      requires from != router.id
      modifies this`router, this`havesDrawn, this`calls, this`relayErrors
      ensures Reliable() ==>
                WantReceived(Machine(), old(Abs()), from, interest, cfg.clock.haveInterval(old(havesDrawn)), Abs(), out)
      ensures PutsOut(out, if RL.AsksAnew(old(router), interest) then [Rt.SendWant(interest)] else [], router.id, relay, ext)
      ensures NoDeliveries(out)
      ensures old(Synced()) ==> Synced()
      ensures old(Grounded()) ==> Grounded()
      ensures router.id == old(router.id)
    {
      hide Reliable, Rt.Step, Node.Route, Lift, Node.HeldUnion, LR.Has, LR.IsEmpty, Rt.NetworkAsk, Paced.PendingStored,
           WantReceived, Claims, PutsOut, Reports, RL.AsksAnew, Answerable, Armed;
      ghost var n := Abs();
      WantIsTaken(cfg.clock.router, router, from, interest);
      var fx := StepRouter(Rt.RecvWant(from, interest));
      ghost var routed := router;
      out := RouteFx(fx, map[], {});
      ghost var interval := cfg.clock.haveInterval(havesDrawn);
      AnswerableIs(router);
      if router.haveTimer.None? && !LR.IsEmpty(Rt.NetworkAsk(router)) {
        ArmIsTaken(cfg.clock.router, router, cfg.clock.haveInterval(havesDrawn));
        var next := cfg.clock.haveInterval(havesDrawn);
        havesDrawn := havesDrawn + 1;
        var none := StepRouter(Rt.ArmHaveTimer(next));
      }
      if Reliable() {
        WantReceivedIs(Machine(), n, from, interest, interval, routed, fx, Abs(), out);
      }
    }

    predicate Takes(inc: Incoming)
      reads this`router
    {
      TakesIn(cfg, router.id, inc)
    }

    /** What is done with a message that is taken in. */
    method Receive(msg: Node.Message) returns (out: seq<Out>, ghost failed: set<Key>)
      requires msg.sender != router.id
      modifies this`router, this`held, this`ext, this`relay, this`havesDrawn, this`calls, this`relayErrors, this`misreads
      ensures Reliable() && old(Synced()) ==>
                Synced() && Received(Machine(), old(Abs()), msg, cfg.clock.haveInterval(old(havesDrawn)), Abs(), out)
      ensures Answering() && old(Grounded()) ==> Grounded()
      ensures Grows(old(relay), relay) && Grows(old(ext), ext)
      ensures CapKept(cfg.relayCap, Forthright(), old(relay), old(misreads), relay, misreads)
      ensures if msg.body.Have? then Honest(out, old(router.held), subs, msg.body.ops, failed, ext) else NoDeliveries(out)
      ensures PutsOut(out, ReceivedFx(cfg.clock.router, old(router), msg), router.id, relay, ext)
      ensures (Answering() ==> failed == {}) && |failed| <= multiset(out)[StorageError]
      ensures router.id == old(router.id)
    {
      hide Reliable, Answering, Forthright, Synced, Grounded, Abs, Honest, WantReceived, HaveReceived, Grows, CapKept,
           NoDeliveries;
      GrowsAtAll(relay);
      GrowsAtAll(ext);
      CapAtAll(cfg.relayCap, Forthright(), relay, misreads);
      failed := {};
      match msg.body {
        case Want(interest) => out := ReceiveWant(msg.sender, interest);
        case Have(ops) => out, failed := ReceiveHave(msg.sender, ops);
      }
    }

    /** A wire message arrives. One that is not taken in changes nothing but the count of drops. */
    method OnWire(at: Time, inc: Incoming) returns (out: seq<Out>, ghost failed: set<Key>)
      requires Clocks.Positive(cfg.clock)
      modifies this
      ensures subs == old(subs) && router.id == old(router.id)
      ensures now == old(CaughtClk(at)).now && Waits() == old(StillWaits(at))
      ensures dropped == old(dropped)
                         + if inc.onLan && inc.decoded.Some? && inc.decoded.value.sender != router.id
                              && (inc.author.Some? ==> cfg.peerKey(inc.decoded.value.sender) == inc.author)
                           then 0 else 1
      ensures !old(Takes(inc)) ==> Abs() == old(CaughtUp(at)) && dropped == old(dropped) + 1
      ensures !old(Takes(inc)) && Reliable() ==> out == old(CatchUpOut(at))
      ensures Reliable() && old(Synced()) && old(Takes(inc)) ==>
                WireReceived(Machine(), old(CaughtUp(at)), inc.decoded.value, old(NextHaveInterval(at)), Abs(),
                             old(CatchUpOut(at)), out)
      ensures Reliable() && old(Synced()) ==> Synced()
      ensures Answering() && old(Grounded()) ==> Grounded()
      ensures Grows(old(relay), relay) && Grows(old(ext), ext)
      ensures CapKept(cfg.relayCap, Forthright(), old(relay), old(misreads), relay, misreads)
      ensures old(Takes(inc)) && inc.decoded.value.body.Have? ==>
                Honest(out, old(CaughtUp(at)).router.held, subs, inc.decoded.value.body.ops, failed, ext)
      ensures (Answering() ==> failed == {}) && |failed| <= multiset(out)[StorageError]
      ensures old(Takes(inc)) ==>
                PutOutInTwo(out, old(CatchUpFx(at)), old(relay), old(ext),
                            ReceivedFx(cfg.clock.router, old(CaughtUp(at)).router, inc.decoded.value), relay, ext, router.id)
      ensures !(old(Takes(inc)) && inc.decoded.value.body.Have?) ==> NoDeliveries(out)
    {
      hide Reliable, Answering, Forthright, Synced, Grounded, Honest, Clocks.Positive, Clocks.Advance, CatchUpOut, Grows,
           CapKept, Ran, PutsOut, PutOutInTwo, NoDeliveries, ReceivedFx, CatchUpFx, StillWaits, Waits, WireReceived,
           CaughtUp, CaughtClk, TakesIn;
      CaughtUpId(at);
      out := CatchUp(at);
      out, failed := TakeIn(inc, out, old(CatchUpFx(at)));
    }

    /** Once caught up, having put out `before`. */
    method TakeIn(inc: Incoming, before: seq<Out>, ghost fx: seq<Rt.Effect>) returns (out: seq<Out>, ghost failed: set<Key>)
      requires PutsOut(before, fx, router.id, relay, ext) && NoDeliveries(before)
      modifies this`router, this`held, this`ext, this`relay, this`havesDrawn, this`calls, this`relayErrors, this`misreads,
               this`dropped
      ensures router.id == old(router.id)
      ensures dropped == old(dropped)
                         + if inc.onLan && inc.decoded.Some? && inc.decoded.value.sender != router.id
                              && (inc.author.Some? ==> cfg.peerKey(inc.decoded.value.sender) == inc.author)
                           then 0 else 1
      ensures !old(Takes(inc)) ==> Abs() == old(Abs()) && dropped == old(dropped) + 1 && out == before
      ensures Reliable() && old(Synced()) && old(Takes(inc)) ==>
                WireReceived(Machine(), old(Abs()), inc.decoded.value, cfg.clock.haveInterval(old(havesDrawn)), Abs(), before,
                             out)
      ensures Reliable() && old(Synced()) ==> Synced()
      ensures Answering() && old(Grounded()) ==> Grounded()
      ensures Grows(old(relay), relay) && Grows(old(ext), ext)
      ensures CapKept(cfg.relayCap, Forthright(), old(relay), old(misreads), relay, misreads)
      ensures old(Takes(inc)) && inc.decoded.value.body.Have? ==>
                Honest(out, old(router.held), subs, inc.decoded.value.body.ops, failed, ext)
      ensures (Answering() ==> failed == {}) && |failed| <= multiset(out)[StorageError]
      ensures old(Takes(inc)) ==>
                PutOutInTwo(out, fx, old(relay), old(ext), ReceivedFx(cfg.clock.router, old(router), inc.decoded.value),
                            relay, ext, router.id)
      ensures !(old(Takes(inc)) && inc.decoded.value.body.Have?) ==> NoDeliveries(out)
    {
      hide Reliable, Answering, Forthright, Synced, Grounded, Honest, Received, Grows, CapKept, PutsOut, PutOutInTwo,
           NoDeliveries, ReceivedFx, WireReceived;
      GrowsAtAll(relay);
      GrowsAtAll(ext);
      CapAtAll(cfg.relayCap, Forthright(), relay, misreads);
      failed, out := {}, before;
      if !inc.onLan || inc.decoded.None? {
        dropped := dropped + 1;
        return;
      }
      var msg := inc.decoded.value;
      if msg.sender == router.id || (inc.author.Some? && cfg.peerKey(msg.sender) != inc.author) {
        dropped := dropped + 1;
        return;
      }
      ghost var n, fx' := Abs(), ReceivedFx(cfg.clock.router, router, msg);
      var more;
      more, failed := Receive(msg);
      if msg.body.Have? {
        HonestAfter(before, more, n.router.held, subs, msg.body.ops, failed, ext);
      } else {
        NoDeliveriesAfter(before, more);
      }
      FailuresAfter(before, more);
      PutOutBoth(before, fx, n.relay, n.ext, more, fx', relay, ext, router.id);
      if Reliable() && old(Synced()) {
        ReceivedAfter(Machine(), n, msg, cfg.clock.haveInterval(old(havesDrawn)), Abs(), before, more);
      }
      out := before + more;
    }

    /** The Have interval to be drawn next once caught up. */
    ghost function NextHaveInterval(at: Time): Time
      requires Clocks.Positive(cfg.clock)
      reads this
    {
      cfg.clock.haveInterval(CaughtClk(at).havesDrawn)
    }

    lemma CaughtUpId(at: Time)
      requires Clocks.Positive(cfg.clock)
      ensures CaughtUp(at).router.id == router.id
    {
      hide Clocks.Advance, Clocks.Positive;
      Clocks.AdvanceFrame(cfg.clock, Clk(), at);
    }

    // ---- Commands ----

    /** Locally authored data: stored at once, its push put off. Only a failure to store it fails the command. */
    method OnAppend(at: Time, k: Key, op: Op) returns (ok: bool, out: seq<Out>)
      requires Clocks.Positive(cfg.clock)
      modifies this
      ensures subs == old(subs) && router.id == old(router.id) && misreads == old(misreads)
      ensures Reliable() || Answering() ==> ok
      ensures Reliable() && old(Synced()) ==>
                Synced() && Abs() == Node.IngestedExt(old(CaughtUp(at)), k, op) && out == old(CatchUpOut(at))
      ensures Answering() && old(Grounded()) ==> Grounded()
      ensures ok ==> k in ext
      ensures now == old(CaughtClk(at)).now
      ensures if ok then Appended(old(StillWaits(at)), k, at, Waits()) else Waits() == old(StillWaits(at))
      ensures relay == old(relay) && (ext == old(ext) || ext == Ingest(old(ext), k, op))
      ensures NoDeliveries(out)
    {
      hide Reliable, Answering, Forthright, Synced, Grounded, Clocks.Positive, Clocks.Advance, Lift, Node.Route, Ingest,
           Node.IngestedExt, Appended, Ran, StillWaits, PutsOut, CatchUpFx;
      CaughtUpId(at);
      out := CatchUp(at);
      var more;
      ok, more := Append(at, k, op);
      out := if ok then out + more else [];
    }

    method Append(at: Time, k: Key, op: Op) returns (ok: bool, out: seq<Out>)
      modifies this`router, this`held, this`ext, this`pending, this`since, this`latest, this`calls, this`relayErrors
      ensures Reliable() || Answering() ==> ok
      ensures Reliable() && old(Synced()) ==> Synced() && Abs() == Node.IngestedExt(old(Abs()), k, op) && out == []
      ensures Answering() && old(Grounded()) ==> Grounded()
      ensures ok ==> k in ext
      ensures if ok then Appended(old(Waits()), k, at, Waits()) else Waits() == old(Waits())
      ensures ext == old(ext) || ext == Ingest(old(ext), k, op)
      ensures NoDeliveries(out) && router.id == old(router.id)
    {
      hide Reliable, Answering, Forthright, Node.HeldUnion, Paced.PendingStored, Ingest, RightElsewhere,
           Node.IngestedExt, Joined, Claims, ClaimsElsewhere;
      ghost var n, was := Abs(), held;
      out := [];
      ok := ExtIngest(k, op);
      IngestStores(n.ext, k, op);
      Paced.PendingStays(pending, n.ext, ext);
      if !ok {
        return;
      }
      AppendTouches(was, relay, n.ext, k, op);
      out := ReconcileTouched({k.log});
      PutOff(at, k, op, n.ext);
      AppendedIs(n, k, op, Abs());
    }

    /** The op joins what is pending. */
    method PutOff(at: Time, k: Key, ghost op: Op, ghost ext0: OpsMap)
      modifies this`pending, this`since, this`latest
      ensures Appended(old(Waits()), k, at, Waits())
      ensures Paced.PendingStored(old(pending), ext0) ==> Paced.PendingStored(pending, Ingest(ext0, k, op))
    {
      hide Paced.PendingStored, Ingest, Joined;
      pending := JoinPending(pending, k, op, ext0);
      if since.None? {
        since := R.Some(at);
      }
      latest := at;
    }

    method RelayHeldAll() returns (all: Option<LR.LogRanges>)
      modifies this`calls, this`relayErrors
      ensures Reliable() ==> all == R.Some(HeldAll(relay))
    {
      hide HeldAll, Seen;
      var f := DrawRelay();
      if f.Failed? { return R.None; }
      SeenFine(f, relay);
      var h := NM.HeldOfAll(Seen(f, relay));
      all := R.Some(h);
    }

    /** Put fetched ops in the application's store one by one, keeping track of those that got there. */
    method IngestFetched(ops: OpsMap) returns (ingested: set<Key>, out: seq<Out>)
      modifies this`ext, this`calls
      ensures NoDeliveries(out)
      ensures Moved(old(ext), ext, ops, ingested)
      ensures Reliable() ==> out == [] && ingested == ops.Keys && MovedAll(old(ext), ext, ops, ops.Keys)
    {
      hide Reliable, Moved, MovedAll, Ingest;
      ingested, out := {}, [];
      ghost var ext0 := ext;
      NothingMoved(ext, ops);
      var todo := ops.Keys;
      while todo != {}
        invariant todo <= ops.Keys
        invariant NoDeliveries(out)
        invariant Moved(ext0, ext, ops, ingested)
        invariant Reliable() ==> out == [] && ingested == ops.Keys - todo && MovedAll(ext0, ext, ops, ops.Keys - todo)
      {
        var k := MinKey(todo);
        ghost var was := ext;
        var ok := ExtIngest(k, ops[k]);
        MovesOne(ext0, was, ext, ops, ingested, k, ok);
        if ok {
          MovesOneOfAll(ext0, was, ops, ops.Keys - todo, k);
          ingested := ingested + {k};
        } else {
          out := out + [StorageError];
        }
        assert ops.Keys - (todo - {k}) == (ops.Keys - todo) + {k};
        todo := todo - {k};
      }
      assert ops.Keys - {} == ops.Keys;
    }

    /** Move what the relay holds under a channel to the application's store, evicting only what got there. */
    method MigrateRelay(c: Channel) returns (under: LR.LogRanges, out: seq<Out>)
      modifies this`ext, this`relay, this`calls, this`relayErrors
      ensures NoDeliveries(out)
      ensures NothingLost(old(relay), old(ext), relay, ext) && Shifted(old(relay), old(ext), relay, ext, under)
      ensures Reliable() ==> out == [] && relay == Node.WithoutChannel(old(relay), c)
                             && ext == Node.MovedExt(old(relay), old(ext), c)
    {
      hide Reliable, LR.Has, NothingLost, Moved, MovedAll, Node.WithoutChannel, Node.MovedExt, Node.LogsUnder, HeldAll,
           LR.IsEmpty, LR.OfKeys, Evict, IsPart, Thinned, Shifted;
      ghost var relay0, ext0 := relay, ext;
      under, out := LR.EMPTY, [];
      NothingLostYet(relay, ext, under);
      var all := RelayHeldAll();
      if all.None? {
        return;
      }
      under := Node.ChannelFull(all.value, c);
      NothingLostYet(relay, ext, under);
      if Reliable() {
        NM.UnderIs(relay, all.value, c);
      }
      if LR.IsEmpty(under) {
        NothingUnder(relay, ext, c, under);
        return;
      }
      out := MoveUnder(c, under);
    }

    method MoveUnder(c: Channel, under: LR.LogRanges) returns (out: seq<Out>)
      modifies this`ext, this`relay, this`calls, this`relayErrors
      ensures NoDeliveries(out)
      ensures NothingLost(old(relay), old(ext), relay, ext) && Shifted(old(relay), old(ext), relay, ext, under)
      ensures Reliable() && under == Node.LogsUnder(old(relay), c) ==>
                out == [] && relay == Node.WithoutChannel(old(relay), c) && ext == Node.MovedExt(old(relay), old(ext), c)
    {
      hide Reliable, LR.Has, NothingLost, Moved, MovedAll, Node.WithoutChannel, Node.MovedExt, Node.LogsUnder,
           LR.IsEmpty, LR.OfKeys, Evict, IsPart, Thinned, Shifted;
      ghost var relay0, ext0 := relay, ext;
      out := [];
      NothingLostYet(relay, ext, under);
      var ops := RelayFetch(under);
      if ops.None? {
        return;
      }
      var ingested;
      ingested, out := IngestFetched(ops.value);
      MovedLosesNothing(relay, ext0, ext, ops.value, ingested, under);
      var gone := H.RangesOf(SortedKeys(ingested));
      KeysListed(ingested);
      if Reliable() && under == Node.LogsUnder(relay0, c) {
        MigratedIs(relay0, ext0, ext, under, c);
      }
      if !LR.IsEmpty(gone) {
        var ok := RelayEvict(gone);
        EvictedLosesNothing(relay0, ext0, ext, ops.value, ingested, relay, under);
      } else {
        EvictNothing(relay0, gone);
      }
    }

    /** Start caring about a channel: migrate, open it, reconcile. Whatever fails, what was held in either store,
        with its payload or without, still is. */
    method OnSubscribe(at: Time, c: Channel) returns (out: seq<Out>)
      requires Clocks.Positive(cfg.clock)
      modifies this
      ensures NoDeliveries(out) && subs == old(subs) + {c} && router.id == old(router.id)
      ensures now == old(CaughtClk(at)).now && Waits() == old(StillWaits(at)) && misreads == old(misreads)
      ensures NothingLost(old(relay), old(ext), relay, ext)
      ensures relay.Keys <= old(relay).Keys && Usage(relay) <= Usage(old(relay)) && Grows(old(ext), ext)
      ensures Reliable() && old(Synced()) ==>
                Synced() && Abs() == Node.Subscribed(old(CaughtUp(at)), c) && out == old(CatchUpOut(at))
      ensures Answering() && old(Grounded()) ==> Grounded()
    {
      hide Reliable, Answering, Forthright, Node.HeldUnion, Paced.PendingStored, Clocks.Positive, Clocks.Advance, Lift,
           Node.Route, NothingLost, Node.Subscribed, Claims, Ran, Grows, Usage, StillWaits, Waits;
      CaughtUpId(at);
      out := CatchUp(at);
      var more := Subscribe(c);
      out := out + more;
    }

    method Subscribe(c: Channel) returns (out: seq<Out>)
      modifies this`router, this`subs, this`held, this`ext, this`relay, this`calls, this`relayErrors
      ensures NoDeliveries(out) && subs == old(subs) + {c} && router.id == old(router.id)
      ensures NothingLost(old(relay), old(ext), relay, ext)
      ensures relay.Keys <= old(relay).Keys && Usage(relay) <= Usage(old(relay)) && Grows(old(ext), ext)
      ensures Reliable() && old(Synced()) ==> Synced() && Abs() == Node.Subscribed(old(Abs()), c) && out == []
      ensures Answering() && old(Grounded()) ==> Grounded()
    {
      hide Reliable, Answering, Forthright, Node.HeldUnion, Paced.PendingStored, NothingLost, Node.Subscribed,
           RightElsewhere, Node.WithoutChannel, Node.MovedExt, Shifted, Claims, ClaimsElsewhere, Grows, Usage;
      ghost var n, was := Abs(), held;
      subs := subs + {c};
      var under;
      under, out := MigrateRelay(c);
      OpenIsTaken(cfg.clock.router, router, subs);
      var none := StepRouter(Rt.Open(subs));
      ShiftedMeans(n.relay, n.ext, relay, ext, under);
      Paced.PendingStays(pending, n.ext, ext);
      ClaimsAfterMove(was, n.relay, n.ext, relay, ext, under);
      RightAfterMove(n.relay, n.ext, c, LogsIn(under));
      var more := ReconcileTouched(LogsIn(under));
      out := out + more;
      if Reliable() && old(Synced()) {
        SubscribedIs(n, c, Abs());
      }
    }

    /** Stop caring about a channel: nothing is migrated or forgotten. */
    method OnUnsubscribe(at: Time, c: Channel) returns (out: seq<Out>)
      requires Clocks.Positive(cfg.clock)
      modifies this
      ensures NoDeliveries(out) && subs == old(subs) - {c} && router.id == old(router.id)
      ensures now == old(CaughtClk(at)).now && Waits() == old(StillWaits(at)) && misreads == old(misreads)
      ensures relay == old(relay) && ext == old(ext)
      ensures Reliable() && old(Synced()) ==>
                Synced() && Abs() == Node.Unsubscribed(old(CaughtUp(at)), c) && out == old(CatchUpOut(at))
      ensures Answering() && old(Grounded()) ==> Grounded()
    {
      hide Reliable, Answering, Forthright, Synced, Grounded, Clocks.Positive, Clocks.Advance, Lift, Node.Route, Ran,
           StillWaits, Waits, CatchUpFx, PutsOut, Node.Unsubscribed;
      CaughtUpId(at);
      out := CatchUp(at);
      var more := Unsubscribe(c);
      out := out + more;
    }

    method Unsubscribe(c: Channel) returns (out: seq<Out>)
      modifies this`router, this`subs, this`held, this`calls, this`relayErrors
      ensures NoDeliveries(out) && subs == old(subs) - {c} && router.id == old(router.id)
      ensures Reliable() && old(Synced()) ==> Synced() && Abs() == Node.Unsubscribed(old(Abs()), c) && out == []
      ensures Answering() && old(Grounded()) ==> Grounded()
    {
      hide Reliable, Answering, Node.HeldUnion, Paced.PendingStored, Claims;
      subs := subs - {c};
      OpenIsTaken(cfg.clock.router, router, subs);
      var none := StepRouter(Rt.Open(subs));
      out := ReconcileAll();
    }

    /** A hint that the application's store changed by other means: re-read the logs named, or everything. */
    method OnHint(at: Time, logs: set<Log>) returns (out: seq<Out>)
      requires Clocks.Positive(cfg.clock)
      modifies this
      ensures NoDeliveries(out) && subs == old(subs) && relay == old(relay) && ext == old(ext)
      ensures router.id == old(router.id)
      ensures now == old(CaughtClk(at)).now && Waits() == old(StillWaits(at)) && misreads == old(misreads)
      ensures Reliable() && (logs != {} ==> RightElsewhere(old(held), relay, ext, logs)) ==>
                held == Node.HeldUnion(relay, ext) && Abs() == Node.Reconcile(old(CaughtUp(at)))
                && out == old(CatchUpOut(at))
      ensures Answering() && (logs != {} ==> ClaimsElsewhere(old(held), relay, ext, logs)) ==>
                Claims(held, relay, ext) && router.held == held
      ensures Reliable() && old(Synced()) ==> Synced() && Abs() == old(CaughtUp(at)) && out == old(CatchUpOut(at))
      ensures Answering() && old(Grounded()) ==> Grounded()
    {
      hide Reliable, Answering, Forthright, Node.HeldUnion, Paced.PendingStored, Clocks.Positive, Clocks.Advance, Lift,
           Node.Route, RightElsewhere, Claims, ClaimsElsewhere, Ran, StillWaits, Waits, CatchUpFx, PutsOut;
      CaughtUpId(at);
      HintIsIdle(held, relay, ext, logs);
      out := CatchUp(at);
      var more := Hint(logs);
      out := out + more;
    }

    method Hint(logs: set<Log>) returns (out: seq<Out>)
      modifies this`router, this`held, this`calls, this`relayErrors
      ensures OnlyErrors(out)
      ensures router == old(router).(held := router.held)
      ensures Reliable() && (logs != {} ==> RightElsewhere(old(held), relay, ext, logs)) ==>
                out == [] && held == Node.HeldUnion(relay, ext) && router.held == held
      ensures Answering() && (logs != {} ==> ClaimsElsewhere(old(held), relay, ext, logs)) ==>
                Claims(held, relay, ext) && router.held == held
    {
      hide Reliable, Answering, Node.HeldUnion, RightElsewhere, Claims, ClaimsElsewhere;
      if logs == {} {
        out := ReconcileAll();
      } else {
        out := ReconcileTouched(logs);
      }
    }

    /** Read the stores for the first time, and arm the first Want. */
    method Init() returns (out: seq<Out>)
      requires router.wantTimer.None?
      modifies this`router, this`held, this`wantsDrawn, this`calls, this`relayErrors
      ensures NoDeliveries(out)
      ensures Reliable() ==> out == [] && held == Node.HeldUnion(relay, ext) && router.held == held
      ensures Reliable() && router.openChannels == subs && Paced.PendingStored(pending, ext) ==> Synced()
      ensures Answering() && router.openChannels == subs && Paced.PendingStored(pending, ext) ==> Grounded()
      ensures router == old(router).(held := router.held, wantTimer := R.Some(cfg.clock.wantInterval(old(wantsDrawn))))
    {
      hide Reliable, Answering, Forthright, Node.HeldUnion, Claims;
      out := ReconcileAll();
      ArmWantIsTaken(cfg.clock.router, router, cfg.clock.wantInterval(wantsDrawn));
      var next := cfg.clock.wantInterval(wantsDrawn);
      wantsDrawn := wantsDrawn + 1;
      var none := StepRouter(Rt.ArmWantTimer(next));
    }

    method RelayHeldPayloads() returns (all: Option<LR.LogRanges>)
      modifies this`calls, this`relayErrors
      ensures Reliable() ==> all == R.Some(HeldPayloads(relay))
    {
      hide HeldPayloads, Seen;
      var f := DrawRelay();
      if f.Failed? { return R.None; }
      SeenFine(f, relay);
      var h := HeldPayloadsOf(Seen(f, relay));
      all := R.Some(h);
    }

    /** Once the relay is over the threshold, drop the payloads nobody asks for; if there are none, drop whole ops
        nobody asks for. */
    method OnMaintain(at: Time) returns (out: seq<Out>)
      requires Clocks.Positive(cfg.clock)
      modifies this
      ensures NoDeliveries(out) && subs == old(subs) && ext == old(ext) && router.id == old(router.id)
      ensures now == old(CaughtClk(at)).now && Waits() == old(StillWaits(at))
      ensures old(misreads) <= misreads && (Forthright() ==> misreads == old(misreads))
      ensures SparesAsked(old(relay), relay, Rt.NetworkAsk(old(CaughtUp(at)).router))
      ensures Usage(relay) <= Usage(old(relay))
      ensures Reliable() && old(Synced()) ==>
                Synced() && Maintained(old(CaughtUp(at)), cfg.evictThreshold, Abs()) && out == old(CatchUpOut(at))
      ensures Answering() && old(Grounded()) ==> Grounded()
    {
      hide Reliable, Answering, Forthright, Node.HeldUnion, Paced.PendingStored, Clocks.Positive, Clocks.Advance, Lift,
           Node.Route, SparesAsked, Maintained, Rt.NetworkAsk, Claims, Ran, Usage, StillWaits, Waits;
      CaughtUpId(at);
      out := CatchUp(at);
      var more := Maintain();
      out := out + more;
    }

    method Maintain() returns (out: seq<Out>)
      modifies this`router, this`held, this`relay, this`calls, this`relayErrors, this`misreads
      ensures NoDeliveries(out) && router.id == old(router.id)
      ensures old(misreads) <= misreads && (Forthright() ==> misreads == old(misreads))
      ensures SparesAsked(old(relay), relay, Rt.NetworkAsk(old(router))) && Usage(relay) <= Usage(old(relay))
      ensures Reliable() && old(Synced()) ==> Synced() && Maintained(old(Abs()), cfg.evictThreshold, Abs()) && out == []
      ensures Answering() && old(Grounded()) ==> Grounded()
    {
      hide Reliable, Answering, Forthright, Node.HeldUnion, Paced.PendingStored, SparesAsked, Rt.NetworkAsk, Usage,
           Claims, Shed;
      out := [];
      SparesAll(relay, Rt.NetworkAsk(router));
      var usage := RelayUsage();
      if usage.Some? && cfg.evictThreshold <= usage.value {
        out := ShedSome();
      }
    }

    /** Payloads first. */
    method ShedSome() returns (out: seq<Out>)
      modifies this`router, this`held, this`relay, this`calls, this`relayErrors
      ensures NoDeliveries(out) && router.id == old(router.id)
      ensures SparesAsked(old(relay), relay, Rt.NetworkAsk(old(router))) && Usage(relay) <= Usage(old(relay))
      ensures Reliable() && old(Synced()) ==> Synced() && Shed(old(Abs()), Abs()) && out == []
      ensures Answering() && old(Grounded()) ==> Grounded()
    {
      hide Reliable, Answering, Forthright, Node.HeldUnion, Paced.PendingStored, SparesAsked, Rt.NetworkAsk,
           LR.Difference, LR.IsEmpty, HeldPayloads, Usage, EvictPayloads, Claims, ShedWhole, Bared;
      ghost var n := Abs();
      out := [];
      SparesAll(relay, Rt.NetworkAsk(router));
      var payloads := RelayHeldPayloads();
      if payloads.None? {
        return;
      }
      var ask := Rt.NetworkAsk(router);
      var candidates := LR.Difference(payloads.value, ask);
      if LR.IsEmpty(candidates) {
        out := ShedWholeOps();
        return;
      }
      var ok := RelayEvictPayloads(candidates);
      SparesPayloads(n.relay, relay, payloads.value, ask);
      ClaimsBared(held, n.relay, relay, ext, candidates);
      HeldBared(n.relay, relay, ext, candidates);
    }

    /** Whole ops, when no payload can go. */
    method ShedWholeOps() returns (out: seq<Out>)
      modifies this`router, this`held, this`relay, this`calls, this`relayErrors
      ensures NoDeliveries(out) && router.id == old(router.id)
      ensures SparesAsked(old(relay), relay, Rt.NetworkAsk(old(router))) && Usage(relay) <= Usage(old(relay))
      ensures Reliable() && old(Synced()) ==> Synced() && ShedWhole(old(Abs()), Abs()) && out == []
      ensures Answering() && old(Grounded()) ==> Grounded()
    {
      hide Reliable, Answering, Forthright, Node.HeldUnion, Paced.PendingStored, SparesAsked, Rt.NetworkAsk,
           LR.Difference, LR.IsEmpty, HeldAll, Usage, Evict, Claims, ClaimsElsewhere, RightElsewhere, Thinned;
      ghost var n, was := Abs(), held;
      out := [];
      SparesAll(relay, Rt.NetworkAsk(router));
      var all := RelayHeldAll();
      if all.None? {
        return;
      }
      var ask := Rt.NetworkAsk(router);
      var whole := LR.Difference(all.value, ask);
      if LR.IsEmpty(whole) {
        return;
      }
      var ok := RelayEvict(whole);
      SparesWhole(n.relay, relay, all.value, ask);
      if ok {
        ClaimsThinned(was, n.relay, relay, ext, whole);
        RightAfterEvict(n.relay, ext, whole, LogsIn(whole));
        out := ReconcileTouched(LogsIn(whole));
      }
    }
  }

  method RereadAll(seen: OpsMap, ext: OpsMap, ghost relay: OpsMap) returns (out: LR.LogRanges)
    requires seen.Keys <= relay.Keys
    ensures out == Node.HeldUnion(seen, ext) && Claims(out, relay, ext)
  {
    hide LR.Union, HeldAll, LR.Has, LR.Clean;
    var extAll := NM.HeldOfAll(ext);
    var relayAll := NM.HeldOfAll(seen);
    UnionEitherWay(seen, ext);
    out := LR.Union(extAll, relayAll);
  }

  /** The touched-logs update: where the snapshot was right elsewhere, it is now right everywhere. */
  method Reread(cache: LR.LogRanges, seen: OpsMap, ext: OpsMap, logs: set<Log>, ghost relay: OpsMap)
    returns (out: LR.LogRanges)
    requires seen.Keys <= relay.Keys
    ensures seen == relay && RightElsewhere(cache, relay, ext, logs) ==> out == Node.HeldUnion(relay, ext)
    ensures ClaimsElsewhere(cache, relay, ext, logs) ==> Claims(out, relay, ext)
  {
    hide Node.HeldUnion, LR.Has, LR.Get, LR.Union, RightElsewhere, IsHeldOf, ClaimsElsewhere, Claims, LR.Clean;
    var extHeld := HeldOf(ext, logs);
    var relayHeld := HeldOf(seen, logs);
    out := Patch(cache, LR.Union(extHeld, relayHeld), logs);
    CleanOf(cache, relay, ext, logs);
    if seen == relay && RightElsewhere(cache, relay, ext, logs) {
      PatchedIsRecomputed(cache, relay, ext, logs, extHeld, relayHeld, out, Node.HeldUnion(relay, ext));
    }
    if ClaimsElsewhere(cache, relay, ext, logs) {
      PatchedClaims(cache, relay, seen, ext, logs, extHeld, relayHeld, out);
    }
  }

  lemma CleanOf(cache: LR.LogRanges, relay: OpsMap, ext: OpsMap, logs: set<Log>)
    ensures RightElsewhere(cache, relay, ext, logs) || ClaimsElsewhere(cache, relay, ext, logs) ==> LR.Clean(cache)
  {
  }

  lemma UnionEitherWay(relay: OpsMap, ext: OpsMap)
    ensures LR.Union(HeldAll(ext), HeldAll(relay)) == Node.HeldUnion(relay, ext)
  {
    hide LR.Union;
    LR.UnionClean(HeldAll(ext), HeldAll(relay));
    LR.CleanCanonical(LR.Union(HeldAll(ext), HeldAll(relay)), Node.HeldUnion(relay, ext));
  }

  lemma NothingReported(subs: set<Channel>, parked: OpsMap, failed: set<Key>)
    ensures Reports([], [], subs, parked, failed) && Lift([]) == []
  {
  }

  lemma QuietReports(out: seq<Out>, e: Rt.Effect, subs: set<Channel>, parked: OpsMap, failed: set<Key>)
    requires NoDeliveries(out) && !e.Accept?
    ensures Reports(out, [e], subs, parked, failed)
  {
    hide NoDeliveries, Tally;
    forall k ensures Tally(out, k) == 0 && Dl.Accepts([e], k) == 0 {
      NoneTallied(out, k);
      assert [e][1..] == [];
    }
  }

  lemma WantPutsOut(w: I.Interest, id: NodeId, relay: OpsMap, ext: OpsMap)
    ensures PutsOut([Did(Node.Broadcast(Node.Message(id, Node.Want(w))))], [Rt.SendWant(w)], id, relay, ext)
  {
  }

  lemma HavePutsOut(ops: OpsMap, errors: seq<Out>, r: LR.LogRanges, id: NodeId, relay: OpsMap, ext: OpsMap)
    requires OnlyErrors(errors) && forall k :: k in ops ==> LR.Has(r, k) && IsCopy(ops, k, relay, ext)
    ensures PutsOut(errors, [Rt.SendHave(r)], id, relay, ext)
    ensures PutsOut(errors + [Did(Node.Broadcast(Node.Message(id, Node.Have(ops))))], [Rt.SendHave(r)], id, relay, ext)
  {
    hide LR.Has, IsCopy;
    forall k | k in ops ensures Rt.SendsKey([Rt.SendHave(r)], k) {
      assert Rt.SendHave(r) in [Rt.SendHave(r)];
    }
  }

  lemma DeliveriesPutNothingOut(out: seq<Out>, e: Rt.Effect, id: NodeId, relay: OpsMap, ext: OpsMap)
    requires e.Accept? && forall o :: o in out ==> IsDelivery(o)
    ensures PutsOut(out, [e], id, relay, ext)
  {
    hide Vouched;
  }

  /** Report each newly accepted, parked and stored op of a subscribed log, in key order. */
  method DeliverStored(subs: set<Channel>, novel: LR.LogRanges, parked: OpsMap, failed: set<Key>) returns (out: seq<Out>)
    ensures Reports(out, [Rt.Accept(novel)], subs, parked, failed)
    ensures forall o :: o in out ==> IsDelivery(o)
    ensures failed == {} ==> out == Lift(Node.DeliverAll(SortedKeys(Node.Delivered(subs, novel, parked))))
  {
    hide LR.Has, Reports, Tally;
    out := [];
    var keys := SortedKeys(Node.Delivered(subs, novel, parked));
    NoneYet(failed);
    for i := 0 to |keys|
      invariant forall o :: o in out ==> IsDelivery(o)
      invariant ReportedOf(out, keys[..i], failed)
      invariant failed == {} ==> |out| == i && forall j :: 0 <= j < i ==> out[j] == Did(Node.Deliver(keys[j]))
    {
      ReportsNext(out, keys, i, failed);
      if keys[i] !in failed {
        out := out + [Did(Node.Deliver(keys[i]))];
      }
    }
    assert keys[..|keys|] == keys;
    AllReported(out, keys, subs, novel, parked, failed);
  }

  /** Each of the keys that did not fail is reported once, and no other. */
  ghost predicate ReportedOf(out: seq<Out>, keys: seq<Key>, failed: set<Key>) {
    forall k :: Tally(out, k) == if k in keys && k !in failed then 1 else 0
  }

  lemma NoneYet(failed: set<Key>)
    ensures ReportedOf([], [], failed)
  {
  }

  lemma ReportsNext(out: seq<Out>, keys: seq<Key>, i: nat, failed: set<Key>)
    requires Sorted(keys) && i < |keys| && ReportedOf(out, keys[..i], failed)
    ensures ReportedOf(if keys[i] in failed then out else out + [Did(Node.Deliver(keys[i]))], keys[..i + 1], failed)
  {
    assert keys[..i + 1] == keys[..i] + [keys[i]];
    forall j | 0 <= j < i ensures keys[j] != keys[i] {
      KeyLessTotal(keys[j], keys[i]);
    }
    assert keys[i] !in keys[..i];
    forall k ensures Tally(out + [Did(Node.Deliver(keys[i]))], k) == Tally(out, k) + if k == keys[i] then 1 else 0 {
      Dl.CountConcat(out, [Did(Node.Deliver(keys[i]))], Did(Node.Deliver(k)));
    }
    forall k ensures k in keys[..i + 1] <==> k in keys[..i] || k == keys[i] {
    }
  }

  lemma AllReported(out: seq<Out>, keys: seq<Key>, subs: set<Channel>, novel: LR.LogRanges, parked: OpsMap,
                    failed: set<Key>)
    requires ReportedOf(out, keys, failed) && keys == SortedKeys(Node.Delivered(subs, novel, parked))
    ensures Reports(out, [Rt.Accept(novel)], subs, parked, failed)
  {
    hide LR.Has, Tally;
    assert [Rt.Accept(novel)][1..] == [];
    forall k ensures Dl.Accepts([Rt.Accept(novel)], k) == if LR.Has(novel, k) then 1 else 0 {
      NothingAccepted(k);
    }
  }

  lemma RoutedMore(n: Node.State, done: seq<Rt.Effect>, fx: seq<Rt.Effect>)
    ensures Lift(Node.Route(n, done + fx, map[])) == Lift(Node.Route(n, done, map[])) + Lift(Node.Route(n, fx, map[]))
  {
    hide Node.Route;
    NM.RouteConcat(n, done, fx, map[]);
    LiftConcat(Node.Route(n, done, map[]), Node.Route(n, fx, map[]));
  }

  lemma EmptyRoute(n: Node.State)
    ensures Lift(Node.Route(n, [], map[])) == []
  {
  }

  lemma Associate<T>(a: seq<T>, b: seq<T>, c: seq<T>)
    ensures a + (b + c) == (a + b) + c
  {
  }

  // ---- The ingest loop ----

  /** The stores are what the node machine's ingestion makes of them. */
  ghost predicate IngestedAll(cap: nat, subs: set<Channel>, relay0: OpsMap, ext0: OpsMap, relay: OpsMap, ext: OpsMap,
                              parked: OpsMap)
  {
    Node.Stores(relay, ext) == Node.IngestAll(cap, subs, Node.Stores(relay0, ext0), SortedKeys(parked.Keys), parked)
  }

  /** After the first `i` parked ops: nothing lost, nothing but parked ops gained, each on its own side, and every
      subscribed one stored unless it failed. */
  ghost predicate Ingested(subs: set<Channel>, relay0: OpsMap, ext0: OpsMap, relay: OpsMap, ext: OpsMap, failed: set<Key>,
                           order: seq<Key>, i: nat, parked: OpsMap)
  {
    && i <= |order|
    && Grows(relay0, relay) && Grows(ext0, ext)
    && (forall k :: k in relay ==> k in relay0 || (k in parked && k.log.channel !in subs))
    && (forall k :: k in ext ==> k in ext0 || (k in parked && k.log.channel in subs))
    && (forall j :: 0 <= j < i && order[j].log.channel in subs && order[j] !in failed ==> order[j] in ext)
  }

  /** The cap is kept, unless a usage read has come out too low since, which no forthright store lets happen. */
  ghost predicate CapKept(cap: nat, forthright: bool, relay0: OpsMap, misreads0: nat, relay: OpsMap, misreads: nat) {
    && misreads0 <= misreads && (forthright ==> misreads == misreads0)
    && (misreads == misreads0 && Usage(relay0) <= cap ==> Usage(relay) <= cap)
  }

  lemma CapAtAll(cap: nat, forthright: bool, relay: OpsMap, misreads: nat)
    ensures CapKept(cap, forthright, relay, misreads, relay, misreads)
  {
  }

  /** The tracked usage is never below the real one, unless a usage read has come out too low. */
  ghost predicate Tracked(usage: Option<nat>, misreads0: nat, relay: OpsMap, misreads: nat) {
    misreads0 <= misreads && (misreads == misreads0 && usage.Some? ==> Usage(relay) <= usage.value)
  }

  ghost function ParkedRelay(cap: nat, relay: OpsMap, k: Key, op: Op): OpsMap {
    if Node.OverCap(cap, relay, k, op) then relay else Ingest(relay, k, op)
  }

  lemma GrowsAtAll(m: OpsMap)
    ensures Grows(m, m)
  {
  }

  /** What is left to ingest leads where ingesting everything from the start does. */
  ghost predicate GoesOn(cap: nat, subs: set<Channel>, relay0: OpsMap, ext0: OpsMap, relay: OpsMap, ext: OpsMap,
                         order: seq<Key>, i: nat, parked: OpsMap)
    requires forall k :: k in order ==> k in parked
  {
    i <= |order|
    && Node.IngestAll(cap, subs, Node.Stores(relay, ext), order[i..], parked)
       == Node.IngestAll(cap, subs, Node.Stores(relay0, ext0), order, parked)
  }

  lemma NothingIngested(cap: nat, subs: set<Channel>, relay: OpsMap, ext: OpsMap, order: seq<Key>, parked: OpsMap)
    requires forall k :: k in order ==> k in parked
    ensures Ingested(subs, relay, ext, relay, ext, {}, order, 0, parked)
    ensures GoesOn(cap, subs, relay, ext, relay, ext, order, 0, parked)
  {
    assert order[0..] == order;
  }

  lemma AllIngested(cap: nat, subs: set<Channel>, relay0: OpsMap, ext0: OpsMap, relay: OpsMap, ext: OpsMap,
                    order: seq<Key>, parked: OpsMap)
    requires forall k :: k in order ==> k in parked
    ensures GoesOn(cap, subs, relay0, ext0, relay, ext, order, |order|, parked) && order == SortedKeys(parked.Keys) ==>
              IngestedAll(cap, subs, relay0, ext0, relay, ext, parked)
  {
    assert order[|order|..] == [];
  }

  lemma IngestedExt(subs: set<Channel>, relay0: OpsMap, ext0: OpsMap, relay: OpsMap, ext: OpsMap, ext': OpsMap,
                    failed: set<Key>, order: seq<Key>, i: nat, parked: OpsMap, ok: bool)
    requires Ingested(subs, relay0, ext0, relay, ext, failed, order, i, parked) && i < |order|
    requires order[i] in parked && order[i].log.channel in subs
    requires ok ==> ext' == Ingest(ext, order[i], parked[order[i]])
    requires ext' == ext || ext' == Ingest(ext, order[i], parked[order[i]])
    ensures Ingested(subs, relay0, ext0, relay, ext', if ok then failed else failed + {order[i]}, order, i + 1, parked)
  {
    GrowsByIngest(ext0, ext, order[i], parked[order[i]]);
    hide Grows;
  }

  lemma IngestedRelay(subs: set<Channel>, relay0: OpsMap, ext0: OpsMap, relay: OpsMap, relay': OpsMap, ext: OpsMap,
                      failed: set<Key>, order: seq<Key>, i: nat, parked: OpsMap)
    requires Ingested(subs, relay0, ext0, relay, ext, failed, order, i, parked) && i < |order|
    requires order[i] in parked && order[i].log.channel !in subs
    requires relay' == relay || relay' == Ingest(relay, order[i], parked[order[i]])
    ensures Ingested(subs, relay0, ext0, relay', ext, failed, order, i + 1, parked)
  {
    GrowsByIngest(relay0, relay, order[i], parked[order[i]]);
    hide Grows;
  }

  lemma NextOp(order: seq<Key>, i: nat)
    requires i < |order|
    ensures order[i..] != [] && order[i..][0] == order[i] && order[i..][1..] == order[i + 1..]
  {
  }

  lemma GoesOnExt(cap: nat, subs: set<Channel>, relay0: OpsMap, ext0: OpsMap, relay: OpsMap, ext: OpsMap,
                  order: seq<Key>, i: nat, parked: OpsMap)
    requires forall k :: k in order ==> k in parked
    requires i < |order| && order[i].log.channel in subs
    ensures GoesOn(cap, subs, relay0, ext0, relay, ext, order, i, parked) ==>
              GoesOn(cap, subs, relay0, ext0, relay, Ingest(ext, order[i], parked[order[i]]), order, i + 1, parked)
  {
    hide Node.OverCap, Ingest;
    NextOp(order, i);
  }

  lemma GoesOnParked(cap: nat, subs: set<Channel>, relay0: OpsMap, ext0: OpsMap, relay: OpsMap, relay': OpsMap, ext: OpsMap,
                     order: seq<Key>, i: nat, parked: OpsMap)
    requires forall k :: k in order ==> k in parked
    requires i < |order| && order[i].log.channel !in subs
    ensures GoesOn(cap, subs, relay0, ext0, relay, ext, order, i, parked)
            && relay' == ParkedRelay(cap, relay, order[i], parked[order[i]]) ==>
              GoesOn(cap, subs, relay0, ext0, relay', ext, order, i + 1, parked)
  {
    hide Node.OverCap, Ingest;
    NextOp(order, i);
  }

  // ---- A Have, received ----

  /** The shell did what the node machine does on a Have, and put out what it emits. */
  ghost predicate HaveReceived(m: Node.Machine, n: Node.State, from: NodeId, parked: OpsMap, n': Node.State,
                               out: seq<Out>)
  {
    var r := Node.ReceivedHave(m, n, from, parked);
    r.Some? && n' == r.value.0 && out == Lift(r.value.1)
  }

  /** Each op that arrived, of a subscribed log, that the router did not hold before and that did not fail to be stored,
      is reported once, and nothing else is; and it is in the application's store. */
  ghost predicate Honest(out: seq<Out>, heldBefore: LR.LogRanges, subs: set<Channel>, parked: OpsMap, failed: set<Key>,
                         ext: OpsMap)
  {
    && (forall k :: Tally(out, k) == if k in parked && k.log.channel in subs && !LR.Has(heldBefore, k) && k !in failed
                                     then 1 else 0)
    && Stored(subs, parked, failed, ext)
  }

  /** The ops of subscribed logs that did not fail are in the application's store. */
  ghost predicate Stored(subs: set<Channel>, parked: OpsMap, failed: set<Key>, ext: OpsMap) {
    forall k :: k in parked && k.log.channel in subs && k !in failed ==> k in ext
  }

  /** What the router decides on a message. */
  ghost function ReceivedFx(cfg: Rt.Config, s: Rt.State, msg: Node.Message): seq<Rt.Effect> {
    match msg.body
    case Want(w) => if RL.AsksAnew(s, w) then [Rt.SendWant(w)] else []
    case Have(ops) => HaveFx(cfg, s, msg.sender, ops)
  }

  ghost function HaveFx(cfg: Rt.Config, s: Rt.State, from: NodeId, ops: OpsMap): seq<Rt.Effect> {
    var r := Rt.Step(cfg, s, Rt.RecvHave(from, LR.OfKeys(ops.Keys)));
    if r.None? then [] else r.value.1
  }

  /** First what one list of decisions puts out, from the stores as they then are, then what another does. */
  ghost predicate PutOutInTwo(out: seq<Out>, fx: seq<Rt.Effect>, relay: OpsMap, ext: OpsMap, fx': seq<Rt.Effect>,
                              relay': OpsMap, ext': OpsMap, id: NodeId)
  {
    exists a, b :: out == a + b && PutsOut(a, fx, id, relay, ext) && PutsOut(b, fx', id, relay', ext')
  }

  lemma PutOutBoth(a: seq<Out>, fx: seq<Rt.Effect>, relay: OpsMap, ext: OpsMap, b: seq<Out>, fx': seq<Rt.Effect>,
                   relay': OpsMap, ext': OpsMap, id: NodeId)
    requires PutsOut(a, fx, id, relay, ext) && PutsOut(b, fx', id, relay', ext')
    ensures PutOutInTwo(a + b, fx, relay, ext, fx', relay', ext', id)
  {
    hide PutsOut;
  }

  lemma ErrorsCounted(errors: seq<Out>, more: seq<Out>, sent: seq<Out>)
    requires OnlyErrors(errors) && OnlyErrors(more)
    ensures OnlyErrors(errors + more) && |errors| <= multiset(errors + more + sent)[StorageError]
  {
    AllAreErrors(errors);
    Dl.CountConcat(errors, more, StorageError);
    Dl.CountConcat(errors + more, sent, StorageError);
  }

  lemma {:induction false} AllAreErrors(errors: seq<Out>)
    requires OnlyErrors(errors)
    ensures multiset(errors)[StorageError] == |errors|
  {
    if errors != [] {
      var front := errors[..|errors| - 1];
      assert errors[|errors| - 1] in errors;
      assert errors == front + [StorageError];
      assert forall o :: o in front ==> o in errors;
      AllAreErrors(front);
      Dl.CountConcat(front, [StorageError], StorageError);
    }
  }

  function LogsOf(parked: OpsMap): (r: set<Log>)
    ensures forall k :: k in parked ==> k.log in r
  {
    set k | k in parked :: k.log
  }

  lemma HaveIsTaken(cfg: Rt.Config, s: Rt.State, from: NodeId, ranges: LR.LogRanges)
    requires from != s.id
    ensures Rt.Step(cfg, s, Rt.RecvHave(from, ranges)).Some?
  {
    hide Rt.ReceivedHave;
  }

  lemma HaveTaken(cfg: Rt.Config, s: Rt.State, from: NodeId, ranges: LR.LogRanges, s': Rt.State, fx: seq<Rt.Effect>)
    requires Rt.Step(cfg, s, Rt.RecvHave(from, ranges)) == R.Some((s', fx))
    ensures s'.openChannels == s.openChannels && s'.id == s.id
  {
    hide Rt.Step, LR.Has, Rt.Relayed, RL.AcceptsKey, Rt.SendsKey;
    RL.HaveReceived(cfg, s, from, ranges, s', fx);
  }

  lemma HaveAccepts(cfg: Rt.Config, s: Rt.State, from: NodeId, ranges: LR.LogRanges, s': Rt.State, fx: seq<Rt.Effect>)
    requires Rt.Step(cfg, s, Rt.RecvHave(from, ranges)) == R.Some((s', fx))
    ensures forall k :: Dl.Accepts(fx, k) == if LR.Has(ranges, k) && !LR.Has(s.held, k) then 1 else 0
  {
    hide Rt.Step, LR.Has, Rt.Relayed, RL.AcceptsKey, Rt.SendsKey;
    RL.HaveReceived(cfg, s, from, ranges, s', fx);
    forall k ensures Dl.Accepts(fx, k) == if LR.Has(ranges, k) && !LR.Has(s.held, k) then 1 else 0 {
      Dl.AcceptsOnce(fx, k);
    }
  }

  lemma IngestedMeans(subs: set<Channel>, relay0: OpsMap, ext0: OpsMap, relay: OpsMap, ext: OpsMap,
                      failed: set<Key>, order: seq<Key>, parked: OpsMap)
    requires Ingested(subs, relay0, ext0, relay, ext, failed, order, |order|, parked)
    requires order == SortedKeys(parked.Keys)
    ensures Grows(relay0, relay) && Grows(ext0, ext) && ext0.Keys <= ext.Keys
    ensures Stored(subs, parked, failed, ext)
  {
    forall k | k in parked && k.log.channel in subs && k !in failed ensures k in ext {
      var j :| 0 <= j < |order| && order[j] == k;
    }
  }

  lemma RightAfterIngest(held: LR.LogRanges, subs: set<Channel>, relay0: OpsMap, ext0: OpsMap, relay: OpsMap, ext: OpsMap,
                         failed: set<Key>, order: seq<Key>, parked: OpsMap)
    requires Ingested(subs, relay0, ext0, relay, ext, failed, order, |order|, parked)
    ensures RightElsewhere(Node.HeldUnion(relay0, ext0), relay, ext, LogsOf(parked))
    ensures Claims(held, relay0, ext0) ==> ClaimsElsewhere(held, relay, ext, LogsOf(parked))
  {
    hide LR.Has, LR.Clean;
  }

  lemma ReportsAreHonest(cfg: Rt.Config, s: Rt.State, from: NodeId, ranges: LR.LogRanges, s': Rt.State,
                         fx: seq<Rt.Effect>, before: seq<Out>, sent: seq<Out>, subs: set<Channel>, parked: OpsMap,
                         failed: set<Key>, ext: OpsMap)
    requires Rt.Step(cfg, s, Rt.RecvHave(from, ranges)) == R.Some((s', fx)) && ranges == LR.OfKeys(parked.Keys)
    requires Reports(sent, fx, subs, parked, failed) && OnlyErrors(before)
    requires Stored(subs, parked, failed, ext)
    ensures Honest(before + sent, s.held, subs, parked, failed, ext)
  {
    hide Rt.Step, LR.Has, Dl.Accepts, Tally, Stored;
    HaveAccepts(cfg, s, from, ranges, s', fx);
    assert NoDeliveries(before);
    forall k ensures Tally(before + sent, k) == Tally(sent, k) {
      TalliedAfter(before, sent, k);
    }
  }

  lemma HaveReceivedIs(m: Node.Machine, n: Node.State, from: NodeId, parked: OpsMap, routed: Rt.State,
                       fx: seq<Rt.Effect>, n': Node.State, out: seq<Out>)
    requires Rt.Step(m.router, n.router, Rt.RecvHave(from, LR.OfKeys(parked.Keys))) == R.Some((routed, fx))
    requires IngestedAll(m.cap, n.subs, n.relay, n.ext, n'.relay, n'.ext, parked)
    requires n' == Node.State(routed.(held := Node.HeldUnion(n'.relay, n'.ext)), n'.relay, n'.ext, n.subs)
    requires out == Lift(Node.Route(n', fx, parked))
    ensures HaveReceived(m, n, from, parked, n', out)
  {
    hide Rt.Step, Node.Route, Lift, Node.HeldUnion, Node.IngestAll, LR.OfKeys, SortedKeys;
  }

  lemma HonestAfter(before: seq<Out>, more: seq<Out>, heldBefore: LR.LogRanges, subs: set<Channel>, parked: OpsMap,
                    failed: set<Key>, ext: OpsMap)
    requires NoDeliveries(before) && Honest(more, heldBefore, subs, parked, failed, ext)
    ensures Honest(before + more, heldBefore, subs, parked, failed, ext)
  {
    hide LR.Has, NoDeliveries;
    hide Tally;
    forall k ensures Tally(before + more, k) == Tally(more, k) {
      TalliedAfter(before, more, k);
    }
  }

  lemma NoDeliveriesAfter(before: seq<Out>, more: seq<Out>)
    requires NoDeliveries(before) && NoDeliveries(more)
    ensures NoDeliveries(before + more)
  {
  }

  lemma FailuresAfter(before: seq<Out>, more: seq<Out>)
    ensures multiset(more)[StorageError] <= multiset(before + more)[StorageError]
  {
    Dl.CountConcat(before, more, StorageError);
  }

  // ---- A Want, received ----

  /** Something is held that a live Want asks for. */
  ghost predicate Answerable(s: Rt.State) {
    exists k :: LR.Has(s.held, k) && RL.Asked(s, k)
  }

  lemma AnswerableIs(s: Rt.State)
    ensures LR.IsEmpty(Rt.NetworkAsk(s)) <==> !Answerable(s)
  {
    hide LR.Has, LR.IsEmpty, Rt.NetworkAsk, RL.Asked;
    RL.SomeKey(Rt.NetworkAsk(s));
    RL.AskIs(s);
  }

  /** The Have timer armed, if it is not and there is something to answer. */
  ghost function Armed(s: Rt.State, interval: Time): (r: Rt.State)
    ensures r == s.(haveTimer := r.haveTimer)
    ensures r.haveTimer == if s.haveTimer.Some? then s.haveTimer else if Answerable(s) then R.Some(interval) else R.None
  {
    hide Answerable, LR.IsEmpty, Rt.NetworkAsk;
    AnswerableIs(s);
    if s.haveTimer.None? && !LR.IsEmpty(Rt.NetworkAsk(s)) then s.(haveTimer := R.Some(interval)) else s
  }

  /** A fired Have timer is armed again exactly if there is still something to answer, with the next interval. */
  lemma HaveIsRearmed(cfg: Clocks.Config, cl: Clocks.Clock)
    requires Rt.HaveDue(cl.router)
    ensures var end := Clocks.FireHave(cfg, cl).0;
            if Answerable(cl.router)
            then end.router.haveTimer == R.Some(cfg.haveInterval(cl.havesDrawn)) && end.havesDrawn == cl.havesDrawn + 1
            else end.router.haveTimer.None? && end.havesDrawn == cl.havesDrawn
  {
    hide Answerable, LR.IsEmpty, Rt.NextHave;
    var fired := Rt.FiredHave(cfg.router, cl.router).0;
    assert Rt.NetworkAsk(fired) == Rt.NetworkAsk(cl.router);
    hide Rt.NetworkAsk;
    AnswerableIs(cl.router);
  }

  ghost predicate WantReceived(m: Node.Machine, n: Node.State, from: NodeId, interest: I.Interest, interval: Time,
                               n': Node.State, out: seq<Out>)
  {
    var r := Node.Routed(m, n, Rt.RecvWant(from, interest));
    r.Some? && n' == r.value.0.(router := Armed(r.value.0.router, interval)) && out == Lift(r.value.1)
  }

  lemma WantIsTaken(cfg: Rt.Config, s: Rt.State, from: NodeId, interest: I.Interest)
    requires from != s.id
    ensures Rt.Step(cfg, s, Rt.RecvWant(from, interest)).Some?
    ensures var p := Rt.Step(cfg, s, Rt.RecvWant(from, interest)).value;
            && p.1 == (if RL.AsksAnew(s, interest) then [Rt.SendWant(interest)] else [])
            && p.0.id == s.id && p.0.held == s.held && p.0.openChannels == s.openChannels
            && forall i :: 0 <= i < |p.1| ==> !p.1[i].Accept?
  {
    hide I.AnyUncoveredBy, Rt.Adopted, RL.AsksAnew, RL.Asked, I.Asks, RL.Adoptable, Rt.MyInterest;
    var p := Rt.Step(cfg, s, Rt.RecvWant(from, interest)).value;
    RL.WantReceived(cfg, s, from, interest, p.0, p.1);
  }

  lemma ArmIsTaken(cfg: Rt.Config, s: Rt.State, interval: Time)
    requires s.haveTimer.None? && !LR.IsEmpty(Rt.NetworkAsk(s))
    ensures Rt.Step(cfg, s, Rt.ArmHaveTimer(interval)) == R.Some((s.(haveTimer := R.Some(interval)), []))
  {
    hide LR.IsEmpty, Rt.NetworkAsk;
  }

  lemma WantReceivedIs(m: Node.Machine, n: Node.State, from: NodeId, interest: I.Interest, interval: Time,
                       routed: Rt.State, fx: seq<Rt.Effect>, n': Node.State, out: seq<Out>)
    requires Rt.Step(m.router, n.router, Rt.RecvWant(from, interest)) == R.Some((routed, fx))
    requires n' == n.(router := Armed(routed, interval))
    requires out == Lift(Node.Route(n.(router := routed), fx, map[]))
    ensures WantReceived(m, n, from, interest, interval, n', out)
  {
    hide Rt.Step, Node.Route, Lift, Armed;
  }

  /** The shell did what the node machine does on the message, then armed the Have timer if it may. */
  ghost predicate WireReceived(m: Node.Machine, n: Node.State, msg: Node.Message, interval: Time, n': Node.State,
                               before: seq<Out>, out: seq<Out>)
  {
    exists more :: Received(m, n, msg, interval, n', more) && out == before + more
  }

  lemma ReceivedAfter(m: Node.Machine, n: Node.State, msg: Node.Message, interval: Time, n': Node.State,
                      before: seq<Out>, more: seq<Out>)
    ensures Received(m, n, msg, interval, n', more) ==> WireReceived(m, n, msg, interval, n', before, before + more)
  {
    hide Received;
  }

  ghost predicate Received(m: Node.Machine, n: Node.State, msg: Node.Message, interval: Time, n': Node.State,
                           out: seq<Out>)
  {
    match msg.body
    case Want(interest) => WantReceived(m, n, msg.sender, interest, interval, n', out)
    case Have(ops) => HaveReceived(m, n, msg.sender, ops, n', out)
  }

  // ---- Appending ----

  /** The op joins what is pending; the oldest pending append keeps its time, the latest is now. */
  ghost predicate Appended(w: Waiting, k: Key, at: Time, w': Waiting) {
    && Joined(w'.pending, w.pending, k) && w'.latest == at
    && w'.since == (if w.since.None? then R.Some(at) else w.since)
  }

  ghost predicate Joined(out: LR.LogRanges, pending: LR.LogRanges, k: Key) {
    out == LR.Union(pending, LR.Singleton(k))
  }

  method JoinPending(pending: LR.LogRanges, k: Key, ghost op: Op, ghost ext: OpsMap) returns (out: LR.LogRanges)
    ensures Joined(out, pending, k)
    ensures Paced.PendingStored(pending, ext) ==> Paced.PendingStored(out, Ingest(ext, k, op))
  {
    hide LR.Has, LR.Union, LR.Singleton, Paced.PendingStored;
    var one := NM.OneKey(k);
    IngestStores(ext, k, op);
    Paced.PendingGrows(pending, k, ext, Ingest(ext, k, op));
    out := LR.Union(pending, one);
  }

  lemma IngestStores(ext: OpsMap, k: Key, op: Op)
    ensures ext.Keys <= Ingest(ext, k, op).Keys && k in Ingest(ext, k, op)
  {
  }

  lemma AppendTouches(held: LR.LogRanges, relay: OpsMap, ext: OpsMap, k: Key, op: Op)
    ensures RightElsewhere(Node.HeldUnion(relay, ext), relay, Ingest(ext, k, op), {k.log})
    ensures Claims(held, relay, ext) ==> ClaimsElsewhere(held, relay, Ingest(ext, k, op), {k.log})
    ensures k in Ingest(ext, k, op)
  {
    hide LR.Has, LR.Clean;
  }

  lemma AppendedIs(n: Node.State, k: Key, op: Op, n': Node.State)
    requires n'.ext == Ingest(n.ext, k, op) && n'.relay == n.relay && n'.subs == n.subs
    ensures n'.router == n.router.(held := Node.HeldUnion(n'.relay, n'.ext)) ==> n' == Node.IngestedExt(n, k, op)
  {
    hide Node.HeldUnion, Ingest;
  }

  // ---- Migrating a channel ----

  function MinKey(s: set<Key>): (k: Key)
    requires s != {}
    ensures k in s
  {
    Least(s)
  }

  /** The application's store only grew, and by ops within the ranges; the relay only shrank. */
  ghost predicate Shifted(relay0: OpsMap, ext0: OpsMap, relay: OpsMap, ext: OpsMap, under: LR.LogRanges) {
    && Grows(ext0, ext) && (forall k :: k in ext ==> k in ext0 || LR.Has(under, k))
    && relay.Keys <= relay0.Keys && (forall k :: k in relay ==> relay[k] == relay0[k])
  }

  lemma NothingLostYet(relay: OpsMap, ext: OpsMap, under: LR.LogRanges)
    ensures NothingLost(relay, ext, relay, ext) && Shifted(relay, ext, relay, ext, under)
  {
  }

  lemma ShiftedMeans(relay0: OpsMap, ext0: OpsMap, relay: OpsMap, ext: OpsMap, under: LR.LogRanges)
    requires Shifted(relay0, ext0, relay, ext, under)
    ensures relay.Keys <= relay0.Keys && Usage(relay) <= Usage(relay0)
    ensures Grows(ext0, ext) && ext0.Keys <= ext.Keys
  {
    hide LR.Has, Usage;
    UsageMonotone(relay, relay0);
  }

  lemma ClaimsAfterMove(held: LR.LogRanges, relay0: OpsMap, ext0: OpsMap, relay: OpsMap, ext: OpsMap, under: LR.LogRanges)
    requires Shifted(relay0, ext0, relay, ext, under) && NothingLost(relay0, ext0, relay, ext)
    ensures Claims(held, relay0, ext0) ==> ClaimsElsewhere(held, relay, ext, LogsIn(under))
  {
    hide LR.Clean;
    forall k | LR.Has(under, k) ensures k.log in LogsIn(under) {
      HasIsIn(under, k);
    }
    hide LR.Has;
  }

  /** The application's store only grew, and by fetched ops; what counts as ingested is there, with the payload it
      was fetched with. */
  ghost predicate Moved(ext0: OpsMap, ext: OpsMap, ops: OpsMap, ingested: set<Key>) {
    && Grows(ext0, ext)
    && (forall k :: k in ext ==> k in ext0 || k in ops)
    && (forall k :: k in ingested ==> k in ops && k in ext && (ops[k].payload.Some? ==> ext[k].payload.Some?))
  }

  /** Each op of `done` was ingested over what was there. */
  ghost predicate MovedAll(ext0: OpsMap, ext: OpsMap, ops: OpsMap, done: set<Key>) {
    && (forall k :: k in ext <==> k in ext0 || (k in ops && k in done))
    && (forall k :: k in ext ==> ext[k] == if k in ops && k in done && Accepts(ext0, k, ops[k]) then ops[k] else ext0[k])
  }

  lemma NothingMoved(ext: OpsMap, ops: OpsMap)
    ensures Moved(ext, ext, ops, {}) && MovedAll(ext, ext, ops, ops.Keys - ops.Keys)
  {
  }

  lemma MovesOne(ext0: OpsMap, ext: OpsMap, ext': OpsMap, ops: OpsMap, ingested: set<Key>, k: Key, ok: bool)
    requires Moved(ext0, ext, ops, ingested) && k in ops
    requires ok ==> ext' == Ingest(ext, k, ops[k])
    requires ext' == ext || ext' == Ingest(ext, k, ops[k])
    ensures Moved(ext0, ext', ops, if ok then ingested + {k} else ingested)
  {
  }

  lemma MovesOneOfAll(ext0: OpsMap, ext: OpsMap, ops: OpsMap, done: set<Key>, k: Key)
    requires k in ops && k !in done
    ensures MovedAll(ext0, ext, ops, done) ==> MovedAll(ext0, Ingest(ext, k, ops[k]), ops, done + {k})
  {
  }

  lemma NothingUnder(relay: OpsMap, ext: OpsMap, c: Channel, under: LR.LogRanges)
    requires LR.IsEmpty(under)
    ensures under == Node.LogsUnder(relay, c) ==> Node.WithoutChannel(relay, c) == relay && Node.MovedExt(relay, ext, c) == ext
  {
    hide LR.Has, Node.LogsUnder, Node.WithoutChannel, Node.MovedExt, LR.IsEmpty;
    LR.EmptyHasNothing(under);
    if under == Node.LogsUnder(relay, c) {
      forall k | k in relay ensures k.log.channel != c {
        Node.LogsUnderAt(relay, c, k);
      }
      NothingToMove(relay, ext, c);
    }
  }

  lemma NothingToMove(relay: OpsMap, ext: OpsMap, c: Channel)
    requires forall k :: k in relay ==> k.log.channel != c
    ensures Node.WithoutChannel(relay, c) == relay && Node.MovedExt(relay, ext, c) == ext
  {
    assert Node.WithoutChannel(relay, c).Keys == relay.Keys;
    assert Node.MovedExt(relay, ext, c).Keys == ext.Keys;
  }

  lemma MovedLosesNothing(relay: OpsMap, ext0: OpsMap, ext: OpsMap, ops: OpsMap, ingested: set<Key>, under: LR.LogRanges)
    requires Moved(ext0, ext, ops, ingested) && IsPart(ops, relay, under)
    ensures NothingLost(relay, ext0, relay, ext) && Shifted(relay, ext0, relay, ext, under)
  {
    hide LR.Has;
  }

  lemma KeysListed(keys: set<Key>)
    ensures (set k | k in SortedKeys(keys)) == keys
  {
  }

  lemma EvictedLosesNothing(relay0: OpsMap, ext0: OpsMap, ext: OpsMap, ops: OpsMap, ingested: set<Key>, relay: OpsMap,
                            under: LR.LogRanges)
    requires Moved(ext0, ext, ops, ingested) && IsPart(ops, relay0, under)
    requires Thinned(relay0, relay, LR.OfKeys(ingested))
    ensures NothingLost(relay0, ext0, relay, ext) && Shifted(relay0, ext0, relay, ext, under)
  {
    hide LR.Has;
  }

  lemma EvictNothing(relay: OpsMap, gone: LR.LogRanges)
    requires LR.IsEmpty(gone)
    ensures Evict(relay, gone) == relay
  {
    LR.EmptyHasNothing(gone);
    hide LR.Has;
    assert Evict(relay, gone).Keys == relay.Keys;
  }

  lemma FetchedIsUnder(relay: OpsMap, c: Channel, k: Key)
    ensures k in Within(relay, Node.LogsUnder(relay, c)) <==> Node.Moves(relay, c, k)
  {
    hide LR.Has, Node.LogsUnder;
    if k in relay {
      Node.LogsUnderAt(relay, c, k);
    }
  }

  lemma EvictKeys(relay: OpsMap, keys: set<Key>)
    ensures forall k :: k in Evict(relay, LR.OfKeys(keys)) <==> k in relay && k !in keys
    ensures forall k :: k in Evict(relay, LR.OfKeys(keys)) ==> Evict(relay, LR.OfKeys(keys))[k] == relay[k]
  {
    hide LR.Has;
  }

  lemma EvictedChannel(relay: OpsMap, left: OpsMap, keys: set<Key>, c: Channel)
    requires forall k :: k in left <==> k in relay && k !in keys
    requires forall k :: k in left ==> left[k] == relay[k]
    requires forall k :: k in keys <==> Node.Moves(relay, c, k)
    ensures left == Node.WithoutChannel(relay, c)
  {
    assert left.Keys == Node.WithoutChannel(relay, c).Keys;
  }

  lemma MovedChannel(relay: OpsMap, ext0: OpsMap, ext: OpsMap, ops: OpsMap, c: Channel)
    requires forall k :: k in ops <==> Node.Moves(relay, c, k)
    requires forall k :: k in ops ==> k in relay && ops[k] == relay[k]
    requires MovedAll(ext0, ext, ops, ops.Keys)
    ensures ext == Node.MovedExt(relay, ext0, c)
  {
    Node.MigratedIs(relay, ext0, ext, c);
  }

  /** Having moved everything fetched, evicting it leaves what the node machine's migration leaves. */
  lemma MigratedIs(relay: OpsMap, ext0: OpsMap, ext: OpsMap, under: LR.LogRanges, c: Channel)
    requires under == Node.LogsUnder(relay, c)
    requires MovedAll(ext0, ext, Within(relay, under), Within(relay, under).Keys)
    ensures Evict(relay, LR.OfKeys(Within(relay, under).Keys)) == Node.WithoutChannel(relay, c)
    ensures ext == Node.MovedExt(relay, ext0, c)
  {
    hide LR.Has, Node.LogsUnder, Within, Evict, LR.OfKeys, MovedAll, Node.Moves, Node.WithoutChannel, Node.MovedExt;
    var ops := Within(relay, under);
    forall k ensures k in ops <==> Node.Moves(relay, c, k) {
      FetchedIsUnder(relay, c, k);
    }
    EvictKeys(relay, ops.Keys);
    EvictedChannel(relay, Evict(relay, LR.OfKeys(ops.Keys)), ops.Keys, c);
    MovedChannel(relay, ext0, ext, ops, c);
  }

  // ---- Subscriptions ----

  lemma OpenIsTaken(cfg: Rt.Config, s: Rt.State, channels: set<Channel>)
    ensures Rt.Step(cfg, s, Rt.Open(channels)) == R.Some((s.(openChannels := channels), []))
  {
  }

  lemma ArmWantIsTaken(cfg: Rt.Config, s: Rt.State, t: Time)
    requires s.wantTimer.None?
    ensures Rt.Step(cfg, s, Rt.ArmWantTimer(t)) == R.Some((s.(wantTimer := R.Some(t)), []))
  {
  }

  function LogsIn(lr: LR.LogRanges): set<Log> {
    set c, a | c in lr && a in lr[c] :: Log(c, a)
  }

  /** A migration moves ops between the stores, so the held snapshot is right for every log already. */
  lemma RightAfterMove(relay: OpsMap, ext: OpsMap, c: Channel, logs: set<Log>)
    ensures RightElsewhere(Node.HeldUnion(relay, ext), Node.WithoutChannel(relay, c), Node.MovedExt(relay, ext, c), logs)
  {
    hide LR.Has, LR.Clean;
  }

  lemma SubscribedIs(n: Node.State, c: Channel, n': Node.State)
    requires n'.relay == Node.WithoutChannel(n.relay, c) && n'.ext == Node.MovedExt(n.relay, n.ext, c)
    requires n'.subs == n.subs + {c}
    requires n'.router == n.router.(openChannels := n'.subs, held := Node.HeldUnion(n'.relay, n'.ext))
    ensures n' == Node.Subscribed(n, c)
  {
    hide Node.HeldUnion, Node.WithoutChannel, Node.MovedExt;
  }

  /** A snapshot that is right, or claims nothing false, stays so when some logs are read again. */
  lemma HintIsIdle(cache: LR.LogRanges, relay: OpsMap, ext: OpsMap, logs: set<Log>)
    ensures cache == Node.HeldUnion(relay, ext) ==> RightElsewhere(cache, relay, ext, logs)
    ensures Claims(cache, relay, ext) ==> ClaimsElsewhere(cache, relay, ext, logs)
  {
    hide LR.Has, LR.Clean;
  }

  // ---- Maintenance ----

  method HeldPayloadsOf(m: OpsMap) returns (r: LR.LogRanges)
    ensures r == HeldPayloads(m)
  {
    var keys := set k | k in m && HasPayload(m, k);
    r := H.RangesOf(SortedKeys(keys));
    KeysListed(keys);
    assert keys == PayloadKeys(m);
  }

  /** Nothing asked for was touched. */
  ghost predicate SparesAsked(before: OpsMap, after: OpsMap, ask: LR.LogRanges) {
    forall k :: k in before && LR.Has(ask, k) ==> k in after && after[k] == before[k]
  }

  /** What maintenance does to a node. */
  ghost predicate Maintained(n: Node.State, threshold: nat, n': Node.State) {
    if Usage(n.relay) < threshold then n' == n else Shed(n, n')
  }

  ghost predicate Shed(n: Node.State, n': Node.State) {
    var candidates := LR.Difference(HeldPayloads(n.relay), Rt.NetworkAsk(n.router));
    if LR.IsEmpty(candidates) then ShedWhole(n, n')
    else n' == Node.Reconcile(n.(relay := EvictPayloads(n.relay, candidates)))
  }

  ghost predicate ShedWhole(n: Node.State, n': Node.State) {
    var whole := LR.Difference(HeldAll(n.relay), Rt.NetworkAsk(n.router));
    if LR.IsEmpty(whole) then n' == n
    else n' == Node.Reconcile(n.(relay := Evict(n.relay, whole)))
  }

  /** What it leaves over the threshold: no payload nobody asks for; and if there was none to begin with, no op
      nobody asks for. */
  lemma MaintainedLeavesAsked(n: Node.State, threshold: nat, n': Node.State, k: Key)
    requires Maintained(n, threshold, n') && threshold <= Usage(n.relay) && k in n'.relay
    ensures n'.relay[k].payload.Some? ==> LR.Has(Rt.NetworkAsk(n.router), k)
    ensures LR.IsEmpty(LR.Difference(HeldPayloads(n.relay), Rt.NetworkAsk(n.router))) ==> LR.Has(Rt.NetworkAsk(n.router), k)
  {
    hide LR.Has, Rt.NetworkAsk, Node.HeldUnion, LR.IsEmpty, LR.Difference, Usage;
    var ask := Rt.NetworkAsk(n.router);
    LR.EmptyHasNothing(LR.Difference(HeldPayloads(n.relay), ask));
    LR.EmptyHasNothing(LR.Difference(HeldAll(n.relay), ask));
    assert k in n.relay;
    assert LR.Has(HeldAll(n.relay), k);
    assert HasPayload(n.relay, k) <==> LR.Has(HeldPayloads(n.relay), k);
  }

  /** What it takes: nothing under the threshold, and never anything asked for or in the application's store; no op
      at all while it finds a payload nobody asks for, and of those it keeps, the header. */
  lemma MaintainedSpares(n: Node.State, threshold: nat, n': Node.State, k: Key)
    requires Maintained(n, threshold, n')
    ensures Usage(n.relay) < threshold ==> n' == n
    ensures n'.ext == n.ext && n'.subs == n.subs
    ensures k in n'.relay ==> k in n.relay && n'.relay[k].header == n.relay[k].header
    ensures k in n.relay && LR.Has(Rt.NetworkAsk(n.router), k) ==> k in n'.relay && n'.relay[k] == n.relay[k]
    ensures (exists x :: HasPayload(n.relay, x) && !LR.Has(Rt.NetworkAsk(n.router), x)) ==> n'.relay.Keys == n.relay.Keys
  {
    hide LR.Has, Rt.NetworkAsk, Node.HeldUnion, LR.IsEmpty, Usage;
    var candidates := LR.Difference(HeldPayloads(n.relay), Rt.NetworkAsk(n.router));
    LR.EmptyHasNothing(candidates);
    assert forall x :: LR.Has(candidates, x) <==> HasPayload(n.relay, x) && !LR.Has(Rt.NetworkAsk(n.router), x);
    hide LR.Difference, HeldPayloads, HeldAll;
    SparedWhole(n.relay, Rt.NetworkAsk(n.router), k);
  }

  lemma SparedWhole(relay: OpsMap, ask: LR.LogRanges, k: Key)
    ensures LR.Has(ask, k) ==> !LR.Has(LR.Difference(HeldAll(relay), ask), k)
  {
    hide LR.Has;
  }

  lemma SparesAll(relay: OpsMap, ask: LR.LogRanges)
    ensures SparesAsked(relay, relay, ask)
  {
  }

  lemma SparesPayloads(before: OpsMap, after: OpsMap, payloads: LR.LogRanges, ask: LR.LogRanges)
    requires Bared(before, after, LR.Difference(payloads, ask))
    ensures SparesAsked(before, after, ask) && Usage(after) <= Usage(before)
  {
    hide LR.Has, Usage;
    UsageMonotone(after, before);
  }

  lemma SparesWhole(before: OpsMap, after: OpsMap, all: LR.LogRanges, ask: LR.LogRanges)
    requires Thinned(before, after, LR.Difference(all, ask))
    ensures SparesAsked(before, after, ask) && Usage(after) <= Usage(before)
  {
    hide LR.Has, Usage;
    UsageMonotone(after, before);
  }

  /** Dropping payloads changes nothing that is held. */
  lemma HeldBared(before: OpsMap, after: OpsMap, ext: OpsMap, candidates: LR.LogRanges)
    requires Bared(before, after, candidates)
    ensures Node.HeldUnion(after, ext) == Node.HeldUnion(before, ext)
  {
    hide Node.HeldUnion, LR.Has;
    Node.HeldUnionOfKeys(before, ext, after, ext);
  }

  lemma ClaimsBared(held: LR.LogRanges, before: OpsMap, after: OpsMap, ext: OpsMap, candidates: LR.LogRanges)
    requires Bared(before, after, candidates)
    ensures Claims(held, before, ext) ==> Claims(held, after, ext)
  {
    hide LR.Has, LR.Clean;
  }

  lemma ClaimsThinned(held: LR.LogRanges, before: OpsMap, after: OpsMap, ext: OpsMap, whole: LR.LogRanges)
    requires Thinned(before, after, whole)
    ensures Claims(held, before, ext) ==> ClaimsElsewhere(held, after, ext, LogsIn(whole))
  {
    hide LR.Clean;
    forall k | LR.Has(whole, k) ensures k.log in LogsIn(whole) {
      HasIsIn(whole, k);
    }
    hide LR.Has;
  }

  lemma RightAfterEvict(relay: OpsMap, ext: OpsMap, whole: LR.LogRanges, logs: set<Log>)
    requires logs == LogsIn(whole)
    ensures RightElsewhere(Node.HeldUnion(relay, ext), Evict(relay, whole), ext, logs)
  {
    hide LR.Clean;
    forall k | LR.Has(whole, k) ensures k.log in logs {
      HasIsIn(whole, k);
    }
    hide LR.Has;
  }

  lemma HasIsIn(lr: LR.LogRanges, k: Key)
    requires LR.Has(lr, k)
    ensures k.log in LogsIn(lr)
  {
    R.EmptyContainsNothing();
    assert k.log == Log(k.log.channel, k.log.author);
  }
}

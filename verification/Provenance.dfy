/** Where ops come from: under loss, duplication and reordering nothing is made up, and a channel nobody
    holds data under stays unheard. */
module Provenance {
  import R = Ranges
  import opened Logs
  import LR = LogRanges
  import I = Interests
  import Rt = Router
  import opened Storage
  import Node
  import NI = NodeInvariant
  import opened Network
  import FT = FloodTermination

  // ---- Ops ----

  /** What was put into the network: ops with the keys they were put under. */
  type Source = iset<(Key, Op)>

  /** An op of the source, possibly without its payload. */
  ghost predicate Genuine(src: Source, k: Key, op: Op) {
    exists o :: (k, o) in src && (op == o || op == StripPayload(o))
  }

  ghost predicate GenuineOps(src: Source, m: OpsMap) {
    forall k :: k in m ==> Genuine(src, k, m[k])
  }

  ghost predicate GenuineNode(src: Source, n: Node.State) {
    GenuineOps(src, n.relay) && GenuineOps(src, n.ext)
  }

  ghost predicate GenuineMessage(src: Source, msg: Node.Message) {
    msg.body.Have? ==> GenuineOps(src, msg.body.ops)
  }

  ghost predicate GenuineInput(src: Source, a: Node.Action) {
    match a
    case Recv(msg) => GenuineMessage(src, msg)
    case Authored(k, op) => (k, op) in src
    case NativeSync(k, op) => (k, op) in src
    case _ => true
  }

  lemma {:induction false} IngestAllGenuine(src: Source, cap: nat, subs: set<Channel>, st: Node.Stores, keys: seq<Key>,
                                            parked: OpsMap)
    requires forall k :: k in keys ==> k in parked
    requires GenuineOps(src, st.relay) && GenuineOps(src, st.ext) && GenuineOps(src, parked)
    ensures var st' := Node.IngestAll(cap, subs, st, keys, parked);
            GenuineOps(src, st'.relay) && GenuineOps(src, st'.ext)
    decreases |keys|
  {
    hide Node.OverCap, Genuine;
    if keys != [] {
      IngestAllGenuine(src, cap, subs, Node.IngestOne(cap, subs, st, keys[0], parked[keys[0]]), keys[1..], parked);
    }
  }

  lemma StrippedIsGenuine(src: Source, k: Key, op: Op)
    requires Genuine(src, k, op)
    ensures Genuine(src, k, StripPayload(op))
  {
    var o :| (k, o) in src && (op == o || op == StripPayload(o));
    assert StripPayload(op) == StripPayload(o);
  }

  lemma {:induction false} RouteGenuine(src: Source, n: Node.State, fx: seq<Rt.Effect>, parked: OpsMap)
    requires GenuineNode(src, n)
    ensures forall msg :: msg in Sent(Node.Route(n, fx, parked)) ==> GenuineMessage(src, msg)
  {
    hide Genuine, Node.RouteOne;
    if fx != [] {
      RouteOneGenuine(src, n, fx[0], parked);
      RouteGenuine(src, n, fx[1..], parked);
      SentConcat(Node.RouteOne(n, fx[0], parked), Node.Route(n, fx[1..], parked));
    }
  }

  lemma RouteOneGenuine(src: Source, n: Node.State, e: Rt.Effect, parked: OpsMap)
    requires GenuineNode(src, n)
    ensures forall msg :: msg in Sent(Node.RouteOne(n, e, parked)) ==> GenuineMessage(src, msg)
  {
    hide Genuine, LR.Has;
    var fx := Node.RouteOne(n, e, parked);
    match e
    case Accept(_) => FT.DeliveriesSendNothing(fx);
    case SendWant(_) => assert fx[1..] == [];
    case SendHave(_) => if fx != [] { assert fx[1..] == []; }
  }

  lemma RoutedGenuine(src: Source, m: Node.Machine, n: Node.State, ra: Rt.Action)
    requires GenuineNode(src, n) && Node.Routed(m, n, ra).Some?
    ensures var p := Node.Routed(m, n, ra).value;
            GenuineNode(src, p.0) && forall msg :: msg in Sent(p.1) ==> GenuineMessage(src, msg)
  {
    hide Rt.Step, Genuine, Node.Route;
    var p := Rt.Step(m.router, n.router, ra).value;
    RouteGenuine(src, n.(router := p.0), p.1, map[]);
  }

  lemma ReceivedHaveGenuine(src: Source, m: Node.Machine, n: Node.State, from: NodeId, parked: OpsMap)
    requires GenuineNode(src, n) && GenuineOps(src, parked) && Node.ReceivedHave(m, n, from, parked).Some?
    ensures var p := Node.ReceivedHave(m, n, from, parked).value;
            GenuineNode(src, p.0) && forall msg :: msg in Sent(p.1) ==> GenuineMessage(src, msg)
  {
    hide Rt.Step, GenuineOps, Node.Route, Node.IngestAll, Node.HeldUnion, LR.OfKeys, SortedKeys;
    var p := Rt.Step(m.router, n.router, Rt.RecvHave(from, LR.OfKeys(parked.Keys))).value;
    var st := Node.IngestAll(m.cap, n.subs, Node.Stores(n.relay, n.ext), SortedKeys(parked.Keys), parked);
    IngestAllGenuine(src, m.cap, n.subs, Node.Stores(n.relay, n.ext), SortedKeys(parked.Keys), parked);
    RouteGenuine(src, Node.Reconcile(n.(router := p.0, relay := st.relay, ext := st.ext)), p.1, parked);
  }

  lemma StoreActionGenuine(src: Source, m: Node.Machine, n: Node.State, a: Node.Action)
    requires a.Subscribe? || a.Unsubscribe? || a.NativeSync? || a.AppGc? || a.RelayEvict? || a.RelayEvictPayloads?
    requires GenuineNode(src, n) && GenuineInput(src, a)
    ensures var p := Node.Step(m, n, a).value; GenuineNode(src, p.0) && p.1 == []
  {
    hide Genuine, LR.Has, Node.HeldUnion;
    match a
    case NativeSync(k, op) => IngestGenuine(src, n.ext, k, op);
    case RelayEvictPayloads(r) =>
      forall k | k in n.relay ensures Genuine(src, k, StripPayload(n.relay[k])) {
        StrippedIsGenuine(src, k, n.relay[k]);
      }
    case _ =>
  }

  lemma IngestGenuine(src: Source, m: OpsMap, k: Key, op: Op)
    requires GenuineOps(src, m) && (k, op) in src
    ensures GenuineOps(src, Ingest(m, k, op))
  {
    assert Genuine(src, k, op);
  }

  /** A node keeps and sends only genuine ops. */
  lemma StepGenuine(src: Source, m: Node.Machine, n: Node.State, a: Node.Action)
    requires GenuineNode(src, n) && GenuineInput(src, a) && Node.Step(m, n, a).Some?
    ensures var p := Node.Step(m, n, a).value;
            GenuineNode(src, p.0) && forall msg :: msg in Sent(p.1) ==> GenuineMessage(src, msg)
  {
    hide GenuineOps, Node.Routed, Node.ReceivedHave, Node.Reconcile;
    match a
    case Router(ra) => RoutedGenuine(src, m, n, ra);
    case Recv(msg) =>
      match msg.body {
        case Want(interest) => RoutedGenuine(src, m, n, Rt.RecvWant(msg.sender, interest));
        case Have(ops) => ReceivedHaveGenuine(src, m, n, msg.sender, ops);
      }
    case Authored(k, op) =>
      IngestGenuine(src, n.ext, k, op);
      IngestedExtStores(n, k, op);
      RoutedGenuine(src, m, Node.IngestedExt(n, k, op), Rt.Push(LR.Singleton(k)));
    case _ => StoreActionGenuine(src, m, n, a);
  }

  lemma IngestedExtStores(n: Node.State, k: Key, op: Op)
    ensures Node.IngestedExt(n, k, op).relay == n.relay && Node.IngestedExt(n, k, op).ext == Ingest(n.ext, k, op)
  {
    hide Node.HeldUnion;
  }

  // ---- Networks ----

  ghost predicate GenuineState(src: Source, s: State) {
    && (forall n :: n in s.nodes ==> GenuineNode(src, s.nodes[n]))
    && (forall f :: f in s.inflight ==> GenuineMessage(src, f.message))
  }

  /** What an action puts into the network. */
  ghost function Injects(a: Action): Source {
    match a
    case NodeAct(_, Authored(k, op)) => iset{(k, op)}
    case NodeAct(_, NativeSync(k, op)) => iset{(k, op)}
    case _ => iset{}
  }

  lemma ActGenuine(src: Source, cfg: Config, s: State, id: NodeId, a: Node.Action)
    requires GenuineState(src, s) && GenuineInput(src, a) && ActOn(cfg, s, id, a).Some?
    ensures GenuineState(src, ActOn(cfg, s, id, a).value.0)
  {
    hide GenuineNode, GenuineMessage, Node.Step, GenuineInput;
    StepGenuine(src, cfg.machine, s.nodes[id], a);
    ExpandSize(Neighbors(cfg.topology, id), Node.Step(cfg.machine, s.nodes[id], a).value.1);
  }

  /** Nothing in any store or flight is made up, whatever the network loses, repeats or reorders. */
  lemma StepKeepsGenuine(src: Source, cfg: Config, s: State, a: Action, s': State, t: Trace)
    requires GenuineState(src, s) && Step(cfg, s, a) == R.Some((s', t)) && Injects(a) <= src
    ensures GenuineState(src, s')
  {
    hide ActOn, GenuineNode, GenuineMessage;
    match a
    case NodeAct(id, na) =>
      assert (na.Authored? ==> (na.key, na.op) in Injects(a)) && (na.NativeSync? ==> (na.key, na.op) in Injects(a));
      ActGenuine(src, cfg, s, id, na);
    case Deliver(f) => ActGenuine(src, cfg, s.(inflight := s.inflight - multiset{f}), f.to, Node.Recv(f.message));
    case _ =>
  }

  ghost predicate InjectsWithin(run: Run, i: nat, src: Source) {
    i < |run.actions| && Injects(run.actions[i]) <= src
  }

  lemma {:induction false} EverythingIsGenuine(src: Source, cfg: Config, run: Run, i: nat)
    requires IsRun(cfg, run) && i <= |run.actions| && GenuineState(src, run.states[0])
    requires forall j: nat :: j < |run.actions| ==> InjectsWithin(run, j, src)
    ensures GenuineState(src, run.states[i])
  {
    hide Step, GenuineState, Injects;
    if i > 0 {
      EverythingIsGenuine(src, cfg, run, i - 1);
      assert StepAt(cfg, run, i - 1) && InjectsWithin(run, i - 1, src);
      StepKeepsGenuine(src, cfg, run.states[i - 1], run.actions[i - 1], run.states[i], run.traces[i - 1]);
    }
  }

  /** One op per key. */
  ghost predicate Functional(src: Source) {
    forall k, a, b :: (k, a) in src && (k, b) in src ==> a == b
  }

  /** Two copies of an op agree on everything but which of them still have the payload. */
  predicate Agree(a: Op, b: Op) {
    a.header == b.header && (a.payload.Some? && b.payload.Some? ==> a.payload == b.payload)
  }

  lemma GenuineAgree(src: Source, k: Key, a: Op, b: Op)
    requires Functional(src) && Genuine(src, k, a) && Genuine(src, k, b)
    ensures Agree(a, b)
  {
    var o :| (k, o) in src && (a == o || a == StripPayload(o));
    var p :| (k, p) in src && (b == p || b == StripPayload(p));
  }

  /** So, with one op per key, any two nodes agree on every op they both hold. */
  lemma NodesAgree(src: Source, cfg: Config, run: Run, i: nat, n: NodeId, n': NodeId, k: Key)
    requires IsRun(cfg, run) && i <= |run.actions| && GenuineState(src, run.states[0]) && Functional(src)
    requires forall j: nat :: j < |run.actions| ==> InjectsWithin(run, j, src)
    requires n in run.states[i].nodes && n' in run.states[i].nodes
    requires Node.Holds(run.states[i].nodes[n], k) && Node.Holds(run.states[i].nodes[n'], k)
    ensures var a, b := run.states[i].nodes[n], run.states[i].nodes[n'];
            Agree(Node.BestCopy(a.relay, a.ext, k), Node.BestCopy(b.relay, b.ext, k))
  {
    hide Genuine, Functional, Agree, Step, Injects;
    EverythingIsGenuine(src, cfg, run, i);
    var a, b := run.states[i].nodes[n], run.states[i].nodes[n'];
    GenuineAgree(src, k, Node.BestCopy(a.relay, a.ext, k), Node.BestCopy(b.relay, b.ext, k));
  }

  // ---- Channels ----

  predicate PureUnder(i: I.Interest, c: Channel) {
    c in i ==> I.IsPure(i[c])
  }

  predicate QuietMessage(msg: Node.Message, c: Channel) {
    msg.body.Want? ==> PureUnder(msg.body.interest, c)
  }

  /** Nothing about `c` has reached this router. */
  ghost predicate Unheard(s: Rt.State, c: Channel) {
    !I.HoldsUnder(s.held, c) && c !in s.heard
  }

  lemma OwnWantIsPure(s: Rt.State, c: Channel)
    requires !I.HoldsUnder(s.held, c)
    ensures PureUnder(Rt.NextWant(s), c)
  {
    hide I.HoldsUnder, LR.Has;
  }

  /** A router that holds nothing under `c` and hears no non-pure ask for it sends none and adopts
      nothing. */
  lemma RouterStaysUnheard(cfg: Rt.Config, s: Rt.State, a: Rt.Action, s': Rt.State, fx: seq<Rt.Effect>, c: Channel)
    requires Rt.Step(cfg, s, a) == R.Some((s', fx)) && Unheard(s, c)
    requires a.RecvWant? ==> PureUnder(a.interest, c)
    ensures c !in s'.heard
    ensures forall e :: e in fx && e.SendWant? ==> PureUnder(e.interest, c)
  {
    hide LR.IsEmpty, LR.Difference, LR.Union, Rt.RelayOf, Rt.RecentHaves, Rt.NetworkAsk, Rt.NextHave, Rt.NextWant,
         I.HoldsUnder, I.AnyUncoveredBy, LR.Has, I.IsPure, Rt.AgeRecords, Rt.AgeSeen, Rt.AgeHaves, Rt.NextDue;
    if a.FireWant? {
      OwnWantIsPure(s, c);
    }
  }

  lemma {:induction false} RouteQuiet(n: Node.State, fx: seq<Rt.Effect>, parked: OpsMap, c: Channel)
    requires forall e :: e in fx && e.SendWant? ==> PureUnder(e.interest, c)
    ensures forall msg :: msg in Sent(Node.Route(n, fx, parked)) ==> QuietMessage(msg, c)
  {
    hide PureUnder, Node.RouteOne;
    if fx != [] {
      RouteOneQuiet(n, fx[0], parked, c);
      RouteQuiet(n, fx[1..], parked, c);
      SentConcat(Node.RouteOne(n, fx[0], parked), Node.Route(n, fx[1..], parked));
    }
  }

  lemma RouteOneQuiet(n: Node.State, e: Rt.Effect, parked: OpsMap, c: Channel)
    requires e.SendWant? ==> PureUnder(e.interest, c)
    ensures forall msg :: msg in Sent(Node.RouteOne(n, e, parked)) ==> QuietMessage(msg, c)
  {
    hide LR.Has, PureUnder;
    var fx := Node.RouteOne(n, e, parked);
    match e
    case Accept(_) => FT.DeliveriesSendNothing(fx);
    case SendWant(_) => assert fx[1..] == [];
    case SendHave(_) => if fx != [] { assert fx[1..] == []; }
  }

  ghost predicate QuietInput(a: Node.Action, c: Channel) {
    a.Recv? ==> QuietMessage(a.message, c)
  }

  lemma RoutedQuiet(m: Node.Machine, n: Node.State, ra: Rt.Action, c: Channel)
    requires Unheard(n.router, c) && Node.Routed(m, n, ra).Some?
    requires ra.RecvWant? ==> PureUnder(ra.interest, c)
    ensures var p := Node.Routed(m, n, ra).value;
            c !in p.0.router.heard && forall msg :: msg in Sent(p.1) ==> QuietMessage(msg, c)
  {
    hide Rt.Step, PureUnder, Node.Route, Unheard, QuietMessage;
    var p := Rt.Step(m.router, n.router, ra).value;
    RouterStaysUnheard(m.router, n.router, ra, p.0, p.1, c);
    RouteQuiet(n.(router := p.0), p.1, map[], c);
  }

  lemma ReceivedHaveQuiet(m: Node.Machine, n: Node.State, from: NodeId, parked: OpsMap, c: Channel)
    requires Unheard(n.router, c) && Node.ReceivedHave(m, n, from, parked).Some?
    ensures var p := Node.ReceivedHave(m, n, from, parked).value;
            c !in p.0.router.heard && forall msg :: msg in Sent(p.1) ==> QuietMessage(msg, c)
  {
    hide Rt.Step, PureUnder, Node.Route, Unheard, QuietMessage, Node.IngestAll, Node.HeldUnion, LR.OfKeys, SortedKeys;
    var ra := Rt.RecvHave(from, LR.OfKeys(parked.Keys));
    var p := Rt.Step(m.router, n.router, ra).value;
    RouterStaysUnheard(m.router, n.router, ra, p.0, p.1, c);
    var n1 := Node.ReceivedHave(m, n, from, parked).value.0;
    RouteQuiet(n1, p.1, parked, c);
  }

  lemma StepQuiet(m: Node.Machine, n: Node.State, a: Node.Action, c: Channel)
    requires Unheard(n.router, c) && QuietInput(a, c) && Node.Step(m, n, a).Some?
    requires a.Authored? ==> a.key.log.channel != c
    ensures var p := Node.Step(m, n, a).value;
            c !in p.0.router.heard && forall msg :: msg in Sent(p.1) ==> QuietMessage(msg, c)
  {
    hide Node.Routed, Node.ReceivedHave, Node.HeldUnion, PureUnder, LR.Has;
    match a
    case Router(ra) => RoutedQuiet(m, n, ra, c);
    case Recv(msg) =>
      match msg.body {
        case Want(interest) => RoutedQuiet(m, n, Rt.RecvWant(msg.sender, interest), c);
        case Have(ops) => ReceivedHaveQuiet(m, n, msg.sender, ops, c);
      }
    case Authored(k, op) =>
      PushQuiet(m, Node.IngestedExt(n, k, op), LR.Singleton(k), c);
    case _ =>
  }

  lemma PushQuiet(m: Node.Machine, n: Node.State, r: LogRanges, c: Channel)
    requires c !in n.router.heard && Node.PushRanges(m, n, r).Some?
    ensures var p := Node.PushRanges(m, n, r).value;
            c !in p.0.router.heard && forall msg :: msg in Sent(p.1) ==> QuietMessage(msg, c)
  {
    hide PureUnder, Node.Route, QuietMessage, LR.IsEmpty, LR.Union, Rt.RelayOf;
    var p := Rt.Step(m.router, n.router, Rt.Push(r)).value;
    RouteQuiet(n.(router := p.0), p.1, map[], c);
  }

  ghost predicate QuietState(cfg: Config, s: State, c: Channel) {
    && (forall n :: n in s.nodes ==> c !in s.nodes[n].router.heard && NI.Inv(cfg.machine, s.nodes[n]))
    && (forall f :: f in s.inflight ==> QuietMessage(f.message, c))
  }

  ghost predicate NothingUnder(src: Source, c: Channel) {
    forall k, op :: (k, op) in src ==> k.log.channel != c
  }

  lemma HeldIsElsewhere(src: Source, n: Node.State, k: Key, c: Channel)
    requires NothingUnder(src, c) && GenuineNode(src, n) && Node.Holds(n, k)
    ensures k.log.channel != c
  {
    if k in n.relay {
      assert Genuine(src, k, n.relay[k]);
    } else {
      assert Genuine(src, k, n.ext[k]);
    }
  }

  lemma HoldsNothingUnder(src: Source, m: Node.Machine, n: Node.State, c: Channel)
    requires NothingUnder(src, c) && GenuineNode(src, n) && NI.Inv(m, n)
    ensures !I.HoldsUnder(n.router.held, c)
    ensures forall k :: Node.Holds(n, k) ==> k.log.channel != c
  {
    hide LR.Has, I.HoldsUnder, NothingUnder, GenuineNode, Usage;
    I.HoldsUnderHas(n.router.held, c);
    forall k | Node.Holds(n, k) ensures k.log.channel != c {
      HeldIsElsewhere(src, n, k, c);
    }
  }

  lemma ActQuiet(src: Source, cfg: Config, s: State, id: NodeId, a: Node.Action, c: Channel)
    requires QuietState(cfg, s, c) && QuietInput(a, c) && ActOn(cfg, s, id, a).Some?
    requires NothingUnder(src, c) && GenuineNode(src, s.nodes[id])
    requires a.Authored? ==> a.key.log.channel != c
    ensures QuietState(cfg, ActOn(cfg, s, id, a).value.0, c)
  {
    hide NI.Inv, QuietMessage, Node.Step, QuietInput, I.HoldsUnder, GenuineNode, NothingUnder;
    HoldsNothingUnder(src, cfg.machine, s.nodes[id], c);
    StepQuiet(cfg.machine, s.nodes[id], a, c);
    NI.StepKeepsInv(cfg.machine, s.nodes[id], a);
    ExpandSize(Neighbors(cfg.topology, id), Node.Step(cfg.machine, s.nodes[id], a).value.1);
  }

  lemma StepKeepsQuiet(src: Source, cfg: Config, s: State, a: Action, s': State, t: Trace, c: Channel)
    requires QuietState(cfg, s, c) && Step(cfg, s, a) == R.Some((s', t)) && Injects(a) <= src
    requires NothingUnder(src, c) && GenuineState(src, s)
    ensures QuietState(cfg, s', c)
  {
    hide ActOn, NI.Inv, QuietMessage, GenuineNode, GenuineMessage;
    match a
    case NodeAct(id, na) =>
      assert na.Authored? ==> (na.key, na.op) in Injects(a);
      ActsOnNode(cfg, s, id, na);
      ActQuiet(src, cfg, s, id, na, c);
    case Deliver(f) =>
      ActsOnNode(cfg, s.(inflight := s.inflight - multiset{f}), f.to, Node.Recv(f.message));
      ActQuiet(src, cfg, s.(inflight := s.inflight - multiset{f}), f.to, Node.Recv(f.message), c);
    case _ =>
  }

  lemma ActsOnNode(cfg: Config, s: State, id: NodeId, a: Node.Action)
    requires ActOn(cfg, s, id, a).Some?
    ensures id in s.nodes
  {
    hide Node.Step;
  }

  /** If no op under `c` is ever put into the network, then in no state of any run does a flight carry a
      claim to hold something under `c`, nor does any node hold anything under it or count it as heard. */
  lemma {:induction false} UnheldChannelStaysUnheard(src: Source, cfg: Config, run: Run, i: nat, c: Channel)
    requires IsRun(cfg, run) && i <= |run.actions|
    requires GenuineState(src, run.states[0]) && QuietState(cfg, run.states[0], c) && NothingUnder(src, c)
    requires forall j: nat :: j < |run.actions| ==> InjectsWithin(run, j, src)
    ensures QuietState(cfg, run.states[i], c)
    ensures forall n, k :: n in run.states[i].nodes && Node.Holds(run.states[i].nodes[n], k) ==> k.log.channel != c
  {
    hide Step, GenuineState, Injects, NothingUnder, QuietState;
    EverythingIsGenuine(src, cfg, run, i);
    if i > 0 {
      UnheldChannelStaysUnheard(src, cfg, run, i - 1, c);
      assert StepAt(cfg, run, i - 1) && InjectsWithin(run, i - 1, src);
      EverythingIsGenuine(src, cfg, run, i - 1);
      StepKeepsQuiet(src, cfg, run.states[i - 1], run.actions[i - 1], run.states[i], run.traces[i - 1], c);
    }
    NobodyHoldsUnder(src, cfg, run.states[i], c);
  }

  lemma NobodyHoldsUnder(src: Source, cfg: Config, s: State, c: Channel)
    requires GenuineState(src, s) && QuietState(cfg, s, c) && NothingUnder(src, c)
    ensures forall n, k :: n in s.nodes && Node.Holds(s.nodes[n], k) ==> k.log.channel != c
  {
    hide NothingUnder, GenuineNode, NI.Inv, GenuineMessage, QuietMessage, Node.Holds;
    forall n, k | n in s.nodes && Node.Holds(s.nodes[n], k) ensures k.log.channel != c {
      HoldsNothingUnder(src, cfg.machine, s.nodes[n], c);
    }
  }
}

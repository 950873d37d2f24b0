/** Flooding ends: an explicit bound on how many deliveries a network at rest can make. */
module FloodTermination {
  import R = Ranges
  import opened Logs
  import LR = LogRanges
  import I = Interests
  import Rt = Router
  import opened Storage
  import Node
  import NM = NodeMachine
  import opened Network
  import opened NodeFlood

  // ---- What one receipt sends ----

  lemma {:induction false} DeliveriesSendNothing(fx: seq<Node.Effect>)
    requires forall i :: 0 <= i < |fx| ==> fx[i].Deliver?
    ensures Sent(fx) == []
  {
    if fx != [] {
      DeliveriesSendNothing(fx[1..]);
    }
  }

  predicate Seen(n: Node.State, i: I.Interest) {
    i in Rt.SeenInterests(n.router.seen)
  }

  /** Sending `msg` used up something the node had not seen or relayed before. */
  ghost predicate Spends(n: Node.State, n': Node.State, heard: Node.Body, sent: Node.Body) {
    match sent
    case Want(i) => heard == sent && !Seen(n, i) && Seen(n', i)
    case Have(ops) =>
      && heard.Have? && ops != map[] && ops.Keys <= heard.ops.Keys
      && forall k :: k in ops ==> !RelayedBy(n, k) && RelayedBy(n', k)
  }

  /** A receipt forgets nothing, and sends at most one message, which spends something. */
  ghost predicate Converges(n: Node.State, heard: Node.Body, n': Node.State, fx: seq<Node.Effect>) {
    && (forall k :: RelayedBy(n, k) ==> RelayedBy(n', k))
    && (forall i :: Seen(n, i) ==> Seen(n', i))
    && |Sent(fx)| <= 1
    && (Sent(fx) != [] ==> Spends(n, n', heard, Sent(fx)[0].body))
  }

  lemma SeenGrows(seen: seq<Rt.SeenWant>, w: Rt.SeenWant)
    ensures Rt.SeenInterests(seen + [w]) == Rt.SeenInterests(seen) + [w.interest]
  {
  }

  lemma WantConverges(m: Node.Machine, n: Node.State, msg: Node.Message)
    requires msg.body.Want? && Node.Routed(m, n, Rt.RecvWant(msg.sender, msg.body.interest)).Some?
    ensures var p := Node.Routed(m, n, Rt.RecvWant(msg.sender, msg.body.interest)).value;
            Converges(n, msg.body, p.0, p.1)
  {
    hide LR.Has, Rt.Adopted, I.AnyUncoveredBy, Rt.Relayed;
    var i := msg.body.interest;
    var p := Rt.ReceivedWant(m.router, n.router, i);
    SeenGrows(n.router.seen, Rt.SeenWant(i, m.router.wantTtl));
    var seen := Rt.SeenInterests(n.router.seen);
    if i in seen {
      I.SeenIsCovered(i, seen);
    }
    var n' := n.(router := p.0);
    assert Rt.SeenInterests(n'.router.seen)[|seen|] == i;
    if p.1 != [] {
      var fx := Node.RouteOne(n', p.1[0], map[]);
      assert fx == [Node.Broadcast(Node.Message(n'.router.id, Node.Want(i)))];
      assert Node.Route(n', p.1, map[]) == fx + [];
      assert Sent(fx) == [Node.Message(n'.router.id, Node.Want(i))] + Sent([]);
    }
  }

  lemma RouteHave(n: Node.State, accept: seq<Rt.Effect>, send: seq<Rt.Effect>, parked: OpsMap)
    requires |accept| <= 1 && |send| <= 1
    requires accept != [] ==> accept[0].Accept?
    requires send != [] ==> send[0].SendHave?
    ensures Sent(Node.Route(n, accept + send, parked)) == if send == [] then [] else Sent(Node.RouteOne(n, send[0], parked))
  {
    hide Node.RouteOne;
    NM.RouteConcat(n, accept, send, parked);
    SentConcat(Node.Route(n, accept, parked), Node.Route(n, send, parked));
    assert Sent(Node.Route(n, accept, parked)) == [] by {
      if accept != [] {
        RouteAccept(n, accept[0], parked);
        RouteOnly(n, accept[0], parked);
        assert accept == [accept[0]];
      }
    }
    if send != [] {
      RouteOnly(n, send[0], parked);
      assert send == [send[0]];
    }
  }

  lemma RouteOnly(n: Node.State, e: Rt.Effect, parked: OpsMap)
    ensures Node.Route(n, [e], parked) == Node.RouteOne(n, e, parked)
  {
    hide Node.RouteOne;
    assert Node.Route(n, [e], parked) == Node.RouteOne(n, e, parked) + Node.Route(n, [e][1..], parked);
  }

  lemma RouteAccept(n: Node.State, e: Rt.Effect, parked: OpsMap)
    requires e.Accept?
    ensures Sent(Node.RouteOne(n, e, parked)) == []
  {
    DeliveriesSendNothing(Node.RouteOne(n, e, parked));
  }

  lemma RouteSendHave(n: Node.State, e: Rt.Effect, parked: OpsMap)
    requires e.SendHave?
    ensures var s := Sent(Node.RouteOne(n, e, parked));
            |s| <= 1 && (s != [] ==> s[0].body.Have? && s[0].body.ops != map[]
                                     && forall k :: k in s[0].body.ops ==> LR.Has(e.ranges, k))
  {
    hide LR.Has;
    var ops := Node.Hydrated(n.relay, n.ext, e.ranges);
    if ops != map[] {
      var fx := Node.RouteOne(n, e, parked);
      assert fx == [Node.Broadcast(Node.Message(n.router.id, Node.Have(ops)))];
      assert Sent(fx) == [fx[0].message] + Sent([]);
    }
  }

  /** What a received Have makes a router decide. */
  lemma HaveDecision(cfg: Rt.Config, s: Rt.State, from: NodeId, ranges: LogRanges, s': Rt.State, fx: seq<Rt.Effect>)
    requires Rt.Step(cfg, s, Rt.RecvHave(from, ranges)) == R.Some((s', fx))
    ensures s'.seen == s.seen
    ensures exists accept, send: seq<Rt.Effect> :: Decided(accept, send, fx)
  {
    hide LR.IsEmpty, LR.Difference, LR.Union, Rt.RelayOf;
    var novel := LR.Difference(ranges, s.held);
    var relay := Rt.RelayOf(s, ranges);
    var accept: seq<Rt.Effect> := if LR.IsEmpty(novel) then [] else [Rt.Accept(novel)];
    var send: seq<Rt.Effect> := if LR.IsEmpty(relay) then [] else [Rt.SendHave(relay)];
    assert Decided(accept, send, fx);
  }

  predicate Decided(accept: seq<Rt.Effect>, send: seq<Rt.Effect>, fx: seq<Rt.Effect>) {
    && |accept| <= 1 && |send| <= 1 && fx == accept + send
    && (accept != [] ==> accept[0].Accept?)
    && (send != [] ==> send[0].SendHave?)
  }

  lemma HaveConverges(m: Node.Machine, n: Node.State, msg: Node.Message)
    requires msg.body.Have? && Node.ReceivedHave(m, n, msg.sender, msg.body.ops).Some?
    ensures var p := Node.ReceivedHave(m, n, msg.sender, msg.body.ops).value;
            Converges(n, msg.body, p.0, p.1)
  {
    hide Rt.Step, Node.Route, Node.RouteOne, Rt.SendsKey, Rt.Relayed, LR.Has, Node.IngestAll, Node.HeldUnion,
         LR.OfKeys, SortedKeys, Sent;
    var parked := msg.body.ops;
    var p := Rt.Step(m.router, n.router, Rt.RecvHave(msg.sender, LR.OfKeys(parked.Keys))).value;
    HaveDecision(m.router, n.router, msg.sender, LR.OfKeys(parked.Keys), p.0, p.1);
    var accept, send: seq<Rt.Effect> :| Decided(accept, send, p.1);
    var n' := Node.ReceivedHave(m, n, msg.sender, parked).value.0;
    assert n'.router == p.0.(held := n'.router.held);
    RouteHave(n', accept, send, parked);
    forall k ensures RelayedBy(n, k) ==> RelayedBy(n', k) {
      RouterSpreads(m.router, n.router, Rt.RecvHave(msg.sender, LR.OfKeys(parked.Keys)), p.0, p.1, k);
    }
    if send != [] {
      RouteSendHave(n', send[0], parked);
      forall k | LR.Has(send[0].ranges, k) ensures k in parked && !RelayedBy(n, k) && RelayedBy(n', k) {
        assert send[0] in p.1;
        SentKeyIsFresh(m.router, n.router, msg.sender, parked.Keys, p.0, p.1, send[0], k);
      }
    }
  }

  lemma SentKeyIsFresh(cfg: Rt.Config, s: Rt.State, from: NodeId, keys: set<Key>, s': Rt.State, fx: seq<Rt.Effect>,
                       e: Rt.Effect, k: Key)
    requires Rt.Step(cfg, s, Rt.RecvHave(from, LR.OfKeys(keys))) == R.Some((s', fx))
    requires e in fx && e.SendHave? && LR.Has(e.ranges, k)
    ensures k in keys && !Rt.Relayed(s.relayed, k) && Rt.Relayed(s'.relayed, k)
  {
    hide LR.Has, Rt.Step, Rt.Relayed;
    assert Rt.SendsKey(fx, k);
    SentFrom(cfg, s, Rt.RecvHave(from, LR.OfKeys(keys)), s', fx, k);
    RouterSpreads(cfg, s, Rt.RecvHave(from, LR.OfKeys(keys)), s', fx, k);
  }

  lemma RecvConverges(m: Node.Machine, n: Node.State, msg: Node.Message)
    requires Node.Step(m, n, Node.Recv(msg)).Some?
    ensures var p := Node.Step(m, n, Node.Recv(msg)).value; Converges(n, msg.body, p.0, p.1)
  {
    hide Converges, Node.Routed, Node.ReceivedHave;
    if msg.body.Want? {
      WantConverges(m, n, msg);
    } else {
      HaveConverges(m, n, msg);
    }
  }

  // ---- The measure ----

  /** Everything that can still circulate: the keys and the interests in flight. */
  datatype Traffic = Traffic(keys: set<Key>, interests: set<I.Interest>)

  predicate Within(t: Traffic, b: Node.Body) {
    match b
    case Want(i) => i in t.interests
    case Have(ops) => ops.Keys <= t.keys
  }

  ghost predicate Circulates(t: Traffic, inflight: multiset<Flight>) {
    forall f :: f in inflight ==> Within(t, f.message.body)
  }

  predicate DegreeAtMost(cfg: Config, d: nat) {
    forall n :: n in cfg.topology ==> |cfg.topology[n]| <= d
  }

  ghost function Unrelayed(nodes: map<NodeId, Node.State>, keys: set<Key>): (r: set<(NodeId, Key)>)
    ensures forall n, k :: (n, k) in r <==> n in nodes && k in keys && !RelayedBy(nodes[n], k)
  {
    set n, k | n in nodes && k in keys && !RelayedBy(nodes[n], k) :: (n, k)
  }

  ghost function Unseen(nodes: map<NodeId, Node.State>, interests: set<I.Interest>): (r: set<(NodeId, I.Interest)>)
    ensures forall n, i :: (n, i) in r <==> n in nodes && i in interests && !Seen(nodes[n], i)
  {
    set n, i | n in nodes && i in interests && !Seen(nodes[n], i) :: (n, i)
  }

  /** What the network has left to spend. */
  ghost function Reserve(s: State, t: Traffic): nat {
    |Unrelayed(s.nodes, t.keys)| + |Unseen(s.nodes, t.interests)|
  }

  ghost function Measure(s: State, t: Traffic, d: nat): nat {
    TimesIsNat(d, Reserve(s, t));
    |s.inflight| + d * Reserve(s, t)
  }

  lemma TimesIsNat(a: nat, b: nat)
    ensures 0 <= a * b
  {
  }

  lemma ReserveShrinks(s: State, id: NodeId, n': Node.State, t: Traffic, heard: Node.Body, fx: seq<Node.Effect>)
    requires id in s.nodes && Converges(s.nodes[id], heard, n', fx) && Within(t, heard)
    ensures Reserve(s.(nodes := s.nodes[id := n']), t) + |Sent(fx)| <= Reserve(s, t)
    ensures forall m :: m in Sent(fx) ==> Within(t, m.body)
  {
    hide RelayedBy, Seen, Sent;
    var after := s.nodes[id := n'];
    SubsetSize(Unrelayed(after, t.keys), Unrelayed(s.nodes, t.keys));
    SubsetSize(Unseen(after, t.interests), Unseen(s.nodes, t.interests));
    if Sent(fx) != [] {
      match Sent(fx)[0].body
      case Want(i) =>
        assert (id, i) in Unseen(s.nodes, t.interests) && (id, i) !in Unseen(after, t.interests);
      case Have(ops) =>
        var k :| k in ops;
        assert (id, k) in Unrelayed(s.nodes, t.keys) && (id, k) !in Unrelayed(after, t.keys);
    }
  }

  lemma Budget(d: nat, before: nat, after: nat, peers: nat, sent: nat)
    requires after + sent <= before && peers <= d
    ensures peers * sent + d * after <= d * before
  {
    assert peers * sent <= d * sent;
    assert d * (after + sent) <= d * before;
  }

  /** Every delivery and every loss brings the end nearer. */
  lemma DeliveryDecreases(cfg: Config, s: State, a: Action, s': State, tr: Trace, t: Traffic, d: nat)
    requires Step(cfg, s, a) == R.Some((s', tr)) && (a.Deliver? || a.Drop?)
    requires Circulates(t, s.inflight) && DegreeAtMost(cfg, d)
    ensures Measure(s', t, d) < Measure(s, t, d)
    ensures Circulates(t, s'.inflight)
  {
    hide Node.Step, Converges, Sent, Within, Reserve;
    var f := a.flight;
    if a.Deliver? {
      var msg := f.message;
      var p := Node.Step(cfg.machine, s.nodes[f.to], Node.Recv(msg)).value;
      RecvConverges(cfg.machine, s.nodes[f.to], msg);
      ReserveShrinks(s, f.to, p.0, t, msg.body, p.1);
      ReserveFrame(s, f.to, p.0, s', t);
      var peers := Neighbors(cfg.topology, f.to);
      ExpandSize(peers, p.1);
      Budget(d, Reserve(s, t), Reserve(s', t), |peers|, |Sent(p.1)|);
    } else {
      ReserveNodes(s, s', t);
    }
  }

  lemma ReserveNodes(s: State, s': State, t: Traffic)
    requires s'.nodes == s.nodes
    ensures Reserve(s', t) == Reserve(s, t)
  {
  }

  lemma ReserveFrame(s: State, id: NodeId, n': Node.State, s': State, t: Traffic)
    requires s'.nodes == s.nodes[id := n']
    ensures Reserve(s', t) == Reserve(s.(nodes := s.nodes[id := n']), t)
  {
  }

  ghost predicate OnlyDelivers(run: Run, i: nat) {
    i < |run.actions| && (run.actions[i].Deliver? || run.actions[i].Drop?)
  }

  lemma {:induction false} MeasureBoundsRun(cfg: Config, run: Run, t: Traffic, d: nat, i: nat)
    requires IsRun(cfg, run) && i <= |run.actions|
    requires forall j: nat :: j < |run.actions| ==> OnlyDelivers(run, j)
    requires Circulates(t, run.states[0].inflight) && DegreeAtMost(cfg, d)
    ensures i + Measure(run.states[i], t, d) <= Measure(run.states[0], t, d)
    ensures Circulates(t, run.states[i].inflight)
  {
    hide Step, Measure, Circulates, DegreeAtMost;
    if i > 0 {
      MeasureBoundsRun(cfg, run, t, d, i - 1);
      assert StepAt(cfg, run, i - 1) && OnlyDelivers(run, i - 1);
      DeliveryDecreases(cfg, run.states[i - 1], run.actions[i - 1], run.states[i], run.traces[i - 1], t, d);
    }
  }

  ghost function KeysOf(f: Flight): set<Key> {
    if f.message.body.Have? then f.message.body.ops.Keys else {}
  }

  /** Everything in flight now. */
  ghost function TrafficOf(inflight: multiset<Flight>): (t: Traffic)
    ensures Circulates(t, inflight)
  {
    var t := Traffic(set f, k | f in inflight && k in KeysOf(f) :: k,
                     set f | f in inflight && f.message.body.Want? :: f.message.body.interest);
    assert forall f, k :: f in inflight && k in KeysOf(f) ==> k in t.keys;
    assert forall f :: f in inflight && f.message.body.Want? ==> f.message.body.interest in t.interests;
    t
  }

  /** Flood termination: with nothing but deliveries and losses, a run is at most as long as the flights,
      plus the largest degree times the pairs of a node and a circulating key or interest new to it. */
  lemma FloodingTerminates(cfg: Config, run: Run, d: nat)
    requires IsRun(cfg, run) && DegreeAtMost(cfg, d)
    requires forall j: nat :: j < |run.actions| ==> OnlyDelivers(run, j)
    ensures |run.actions| <= Measure(run.states[0], TrafficOf(run.states[0].inflight), d)
  {
    hide Step, Measure, Circulates, DegreeAtMost;
    MeasureBoundsRun(cfg, run, TrafficOf(run.states[0].inflight), d, |run.actions|);
  }
}

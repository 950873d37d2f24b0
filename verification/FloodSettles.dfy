/** A flood runs to its end: until nothing is in flight, something can be delivered. */
module FloodSettles {
  import R = Ranges
  import opened Logs
  import LR = LogRanges
  import Rt = Router
  import opened Storage
  import Node
  import NI = NodeInvariant
  import G = Graphs
  import opened Network
  import FT = FloodTermination
  import FC = FloodCoverage

  // ---- Messages carry their sender's id ----

  ghost predicate Signed(id: NodeId, fx: seq<Node.Effect>) {
    forall msg :: msg in Sent(fx) ==> msg.sender == id
  }

  lemma RouteOneSigned(n: Node.State, e: Rt.Effect, parked: OpsMap)
    ensures Signed(n.router.id, Node.RouteOne(n, e, parked))
  {
    hide LR.Has;
    var fx := Node.RouteOne(n, e, parked);
    match e
    case Accept(_) => FT.DeliveriesSendNothing(fx);
    case SendWant(_) => assert Sent(fx) == [fx[0].message] + Sent([]);
    case SendHave(_) => if fx != [] { assert Sent(fx) == [fx[0].message] + Sent([]); }
  }

  lemma {:induction false} RouteSigned(n: Node.State, fx: seq<Rt.Effect>, parked: OpsMap)
    ensures Signed(n.router.id, Node.Route(n, fx, parked))
  {
    hide Node.RouteOne;
    if fx != [] {
      RouteOneSigned(n, fx[0], parked);
      RouteSigned(n, fx[1..], parked);
      SentConcat(Node.RouteOne(n, fx[0], parked), Node.Route(n, fx[1..], parked));
    }
  }

  lemma RoutedSigned(m: Node.Machine, n: Node.State, ra: Rt.Action)
    requires Node.Routed(m, n, ra).Some?
    ensures var p := Node.Routed(m, n, ra).value; p.0.router.id == n.router.id && Signed(n.router.id, p.1)
  {
    hide Rt.Step, Node.Route, Signed;
    var p := Rt.Step(m.router, n.router, ra).value;
    NI.RouterFrame(m.router, n.router, ra, p.0, p.1);
    RouteSigned(n.(router := p.0), p.1, map[]);
  }

  lemma ReceivedHaveSigned(m: Node.Machine, n: Node.State, from: NodeId, parked: OpsMap)
    requires Node.ReceivedHave(m, n, from, parked).Some?
    ensures var p := Node.ReceivedHave(m, n, from, parked).value; p.0.router.id == n.router.id && Signed(n.router.id, p.1)
  {
    hide Rt.Step, Node.Route, Signed, Node.IngestAll, Node.HeldUnion, LR.OfKeys, SortedKeys, LR.Has;
    var ra := Rt.RecvHave(from, LR.OfKeys(parked.Keys));
    var p := Rt.Step(m.router, n.router, ra).value;
    NI.RouterFrame(m.router, n.router, ra, p.0, p.1);
    RouteSigned(Node.ReceivedHave(m, n, from, parked).value.0, p.1, parked);
  }

  lemma StepSigned(m: Node.Machine, n: Node.State, a: Node.Action)
    requires Node.Step(m, n, a).Some?
    ensures var p := Node.Step(m, n, a).value; p.0.router.id == n.router.id && Signed(n.router.id, p.1)
  {
    hide Node.Routed, Node.ReceivedHave, Node.HeldUnion, LR.Has;
    match a
    case Router(ra) => RoutedSigned(m, n, ra);
    case Recv(msg) =>
      match msg.body {
        case Want(interest) => RoutedSigned(m, n, Rt.RecvWant(msg.sender, interest));
        case Have(ops) => ReceivedHaveSigned(m, n, msg.sender, ops);
      }
    case Authored(k, op) => RoutedSigned(m, Node.IngestedExt(n, k, op), Rt.Push(LR.Singleton(k)));
    case _ =>
  }

  // ---- Every flight is addressed to a node that did not send it ----

  ghost predicate Addressed(cfg: Config, s: State) {
    && s.nodes.Keys == cfg.topology.Keys
    && (forall n :: n in s.nodes ==> s.nodes[n].router.id == n)
    && (forall f :: f in s.inflight ==> f.to in s.nodes && f.message.sender != f.to)
  }

  lemma {:induction false} ExpandTo(peers: set<NodeId>, fx: seq<Node.Effect>, f: Flight)
    requires f in Expand(peers, fx)
    ensures f.to in peers && f.message in Sent(fx)
    decreases |fx|
  {
    if fx != [] && f in Expand(peers, fx[1..]) {
      ExpandTo(peers, fx[1..], f);
    }
  }

  lemma ActAddressed(cfg: Config, s: State, id: NodeId, a: Node.Action)
    requires Addressed(cfg, s) && G.Symmetric(cfg.topology) && ActOn(cfg, s, id, a).Some?
    ensures Addressed(cfg, ActOn(cfg, s, id, a).value.0)
  {
    hide Node.Step, G.Symmetric, Signed;
    var p := Node.Step(cfg.machine, s.nodes[id], a).value;
    StepSigned(cfg.machine, s.nodes[id], a);
    forall f | f in Expand(Neighbors(cfg.topology, id), p.1) ensures f.to in s.nodes && f.message.sender != f.to {
      ExpandAddressed(cfg, id, p.1, f);
    }
  }

  lemma ExpandAddressed(cfg: Config, id: NodeId, fx: seq<Node.Effect>, f: Flight)
    requires G.Symmetric(cfg.topology) && Signed(id, fx) && f in Expand(Neighbors(cfg.topology, id), fx)
    ensures f.to in cfg.topology && f.message.sender != f.to
  {
    ExpandTo(Neighbors(cfg.topology, id), fx, f);
  }

  lemma StepAddressed(cfg: Config, s: State, a: Action, s': State, t: Trace)
    requires Addressed(cfg, s) && G.Symmetric(cfg.topology) && Step(cfg, s, a) == R.Some((s', t))
    ensures Addressed(cfg, s')
  {
    hide ActOn, G.Symmetric, Addressed;
    match a
    case NodeAct(id, na) => ActAddressed(cfg, s, id, na);
    case Deliver(f) =>
      FewerAddressed(cfg, s, f);
      ActAddressed(cfg, s.(inflight := s.inflight - multiset{f}), f.to, Node.Recv(f.message));
    case Drop(f) => FewerAddressed(cfg, s, f);
    case Duplicate(f) => MoreAddressed(cfg, s, f);
  }

  lemma FewerAddressed(cfg: Config, s: State, f: Flight)
    requires Addressed(cfg, s)
    ensures Addressed(cfg, s.(inflight := s.inflight - multiset{f}))
  {
  }

  lemma MoreAddressed(cfg: Config, s: State, f: Flight)
    requires Addressed(cfg, s) && f in s.inflight
    ensures Addressed(cfg, s.(inflight := s.inflight + multiset{f}))
  {
  }

  lemma {:induction false} AddressedOverRun(cfg: Config, run: Run, i: nat)
    requires IsRun(cfg, run) && i <= |run.actions| && Addressed(cfg, run.states[0]) && G.Symmetric(cfg.topology)
    ensures Addressed(cfg, run.states[i])
  {
    hide Step, Addressed, G.Symmetric;
    if i > 0 {
      AddressedOverRun(cfg, run, i - 1);
      assert StepAt(cfg, run, i - 1);
      StepAddressed(cfg, run.states[i - 1], run.actions[i - 1], run.states[i], run.traces[i - 1]);
    }
  }

  /** With room for what is left to spend, any flight can be delivered. */
  lemma DeliveryEnabled(cfg: Config, s: State, f: Flight, t: FT.Traffic, d: nat)
    requires Addressed(cfg, s) && f in s.inflight
    requires FT.Circulates(t, s.inflight) && FT.DegreeAtMost(cfg, d) && FT.Measure(s, t, d) <= cfg.cap
    ensures Step(cfg, s, Deliver(f)).Some?
  {
    hide Node.Step, FT.Converges, Sent, FT.Within, FT.Reserve;
    var n, msg := s.nodes[f.to], f.message;
    NI.RecvNeverErrors(cfg.machine, n, msg);
    var p := Node.Step(cfg.machine, n, Node.Recv(msg)).value;
    FT.RecvConverges(cfg.machine, n, msg);
    FT.ReserveShrinks(s, f.to, p.0, t, msg.body, p.1);
    var peers := Neighbors(cfg.topology, f.to);
    ExpandSize(peers, p.1);
    FT.Budget(d, FT.Reserve(s, t), FT.Reserve(s.(nodes := s.nodes[f.to := p.0]), t), |peers|, |Sent(p.1)|);
    NonNegative(d, FT.Reserve(s.(nodes := s.nodes[f.to := p.0]), t));
    var taken := s.inflight - multiset{f};
    assert |taken + Expand(peers, p.1)| == |taken| + |Expand(peers, p.1)|;
  }

  lemma NonNegative(a: nat, b: nat)
    ensures 0 <= a * b
  {
  }

  /** A flood runs to its end. Over deliveries and losses alone, from a network whose cap has room for the
      bound, the run is no longer than the bound; and as long as anything is in flight, any of it can be
      delivered next, so only an empty network stops it. */
  lemma FloodRunsToItsEnd(cfg: Config, run: Run, d: nat, f: Flight)
    requires IsRun(cfg, run) && FT.DegreeAtMost(cfg, d) && G.Symmetric(cfg.topology)
    requires forall j: nat :: j < |run.actions| ==> FT.OnlyDelivers(run, j)
    requires Addressed(cfg, run.states[0])
    requires FT.Measure(run.states[0], FT.TrafficOf(run.states[0].inflight), d) <= cfg.cap
    ensures |run.actions| <= FT.Measure(run.states[0], FT.TrafficOf(run.states[0].inflight), d)
    ensures f in run.states[|run.actions|].inflight ==> Step(cfg, run.states[|run.actions|], Deliver(f)).Some?
  {
    hide Step, FT.Measure, FT.Circulates, FT.DegreeAtMost, Addressed, G.Symmetric;
    var t := FT.TrafficOf(run.states[0].inflight);
    FT.MeasureBoundsRun(cfg, run, t, d, |run.actions|);
    AddressedOverRun(cfg, run, |run.actions|);
    if f in run.states[|run.actions|].inflight {
      DeliveryEnabled(cfg, run.states[|run.actions|], f, t, d);
    }
  }

  // ---- Together with coverage ----

  ghost function Suffix(run: Run, i: nat): Run
    requires i <= |run.states| && i <= |run.actions| && i <= |run.traces|
  {
    Run(run.states[i..], run.actions[i..], run.traces[i..])
  }

  lemma SuffixIsRun(cfg: Config, run: Run, i: nat)
    requires IsRun(cfg, run) && i <= |run.actions|
    ensures IsRun(cfg, Suffix(run, i))
    ensures Suffix(run, i).states[0] == run.states[i]
    ensures Suffix(run, i).states[|run.actions| - i] == run.states[|run.actions|]
  {
    hide Step;
    var rest := Suffix(run, i);
    forall j: nat | j < |rest.actions| ensures StepAt(cfg, rest, j) {
      assert StepAt(cfg, run, i + j);
    }
  }

  lemma SuffixDelivers(run: Run, i: nat)
    requires i <= |run.states| && i <= |run.actions| && i <= |run.traces|
    requires forall j: nat :: i <= j < |run.actions| ==> FT.OnlyDelivers(run, j)
    ensures forall j: nat :: j < |Suffix(run, i).actions| ==> FT.OnlyDelivers(Suffix(run, i), j)
  {
    forall j: nat | j < |Suffix(run, i).actions| ensures FT.OnlyDelivers(Suffix(run, i), j) {
      assert FT.OnlyDelivers(run, i + j);
    }
  }

  ghost predicate Deliverable(cfg: Config, s: State, f: Flight) {
    Step(cfg, s, Deliver(f)).Some?
  }

  /** Nothing in flight can be delivered. */
  ghost predicate Stuck(cfg: Config, s: State) {
    forall f :: f in s.inflight ==> !Deliverable(cfg, s, f)
  }

  /** An authored op reaches everyone, and soon. On a connected network at rest with respect to `x`, let a run
      author it, lose no copy of it, and from then on only deliver (and lose other messages). Then what follows
      the authoring is no longer than the bound; and when nothing more can be delivered, every node holds `x`. */
  lemma AuthoredOpReachesEveryone(cfg: Config, run: Run, x: Key, start: nat, d: nat)
    requires IsRun(cfg, run) && G.Connected(cfg.topology) && G.Symmetric(cfg.topology) && FT.DegreeAtMost(cfg, d)
    requires FC.Quiet(cfg, run.states[0], x) && Addressed(cfg, run.states[0])
    requires forall j: nat :: j < |run.actions| ==> FC.KeepsOpAt(cfg, run, j, x)
    requires start < |run.actions| && FC.Starts(run.actions[start], x)
    requires forall j: nat :: start < j < |run.actions| ==> FT.OnlyDelivers(run, j)
    requires FT.Measure(run.states[start + 1], FT.TrafficOf(run.states[start + 1].inflight), d) <= cfg.cap
    ensures |run.actions| - (start + 1)
         <= FT.Measure(run.states[start + 1], FT.TrafficOf(run.states[start + 1].inflight), d)
    ensures Stuck(cfg, run.states[|run.actions|]) ==> FC.Everywhere(cfg, run.states[|run.actions|], x)
  {
    hide Step, FT.Measure, FT.Circulates, FT.DegreeAtMost, Addressed, G.Symmetric, G.Connected, FC.Quiet, FC.KeepsOp,
         FC.Starts, FC.Everywhere, IsRun;
    RunShape(cfg, run);
    var last := run.states[|run.actions|];
    var rest := Suffix(run, start + 1);
    SuffixIsRun(cfg, run, start + 1);
    RunShape(cfg, rest);
    SuffixDelivers(run, start + 1);
    AddressedOverRun(cfg, run, start + 1);
    forall f | f in last.inflight ensures Deliverable(cfg, last, f) {
      FloodRunsToItsEnd(cfg, rest, d, f);
    }
    FT.FloodingTerminates(cfg, rest, d);
    if Stuck(cfg, last) {
      FC.FloodReachesEveryNode(cfg, run, x, start);
    }
  }

  lemma RunShape(cfg: Config, run: Run)
    requires IsRun(cfg, run)
    ensures |run.states| == |run.actions| + 1 && |run.traces| == |run.actions|
  {
  }
}

/** Flood coverage: an authored op reaches every node of a connected network. */
module FloodCoverage {
  import R = Ranges
  import opened Logs
  import Node
  import NI = NodeInvariant
  import G = Graphs
  import opened Network
  import opened NodeFlood

  predicate Bears(f: Flight, x: Key) {
    f.message.body.Have? && x in f.message.body.ops
  }

  /** Some flight carries `x` to `n`. */
  ghost predicate Carried(inflight: multiset<Flight>, n: NodeId, x: Key) {
    exists f :: f in inflight && f.to == n && Bears(f, x)
  }

  /** `B` has flooded `x`: it holds `x`, and each neighbour has flooded it too, has a copy on the way, or
      is `pending`. */
  ghost predicate Flooding(cfg: Config, s: State, x: Key, B: set<NodeId>, pending: set<NodeId>) {
    && s.nodes.Keys == cfg.topology.Keys
    && B <= s.nodes.Keys
    && (forall b :: b in B ==> Node.Holds(s.nodes[b], x))
    && (forall b, n :: b in B && n in cfg.topology[b] ==> n in B || n in pending || Carried(s.inflight, n, x))
    && (forall n :: n in s.nodes && RelayedBy(s.nodes[n], x) ==> n in B)
    && (forall n :: n in s.nodes ==> NI.Inv(cfg.machine, s.nodes[n]))
  }

  lemma {:induction false} ExpandCarries(peers: set<NodeId>, fx: seq<Node.Effect>, n: NodeId, x: Key)
    requires SendsOp(fx, x) && n in peers
    ensures Carried(Expand(peers, fx), n, x)
    decreases |fx|
  {
    var i :| 0 <= i < |fx| && CarriesOp(fx[i], x);
    if i == 0 {
      var f := Flight(n, fx[0].message);
      assert f in Copies(peers, fx[0].message);
      assert f in Expand(peers, fx) && f.to == n && Bears(f, x);
    } else {
      assert fx[1..][i - 1] == fx[i];
      ExpandCarries(peers, fx[1..], n, x);
      var f :| f in Expand(peers, fx[1..]) && f.to == n && Bears(f, x);
      assert f in Expand(peers, fx);
    }
  }

  lemma CarriedMore(a: multiset<Flight>, b: multiset<Flight>, n: NodeId, x: Key)
    requires Carried(a, n, x) || Carried(b, n, x)
    ensures Carried(a + b, n, x)
  {
    if Carried(a, n, x) {
      var f :| f in a && f.to == n && Bears(f, x);
      assert f in a + b;
    }
    if Carried(b, n, x) {
      var f :| f in b && f.to == n && Bears(f, x);
      assert f in a + b;
    }
  }

  ghost function Widened(B: set<NodeId>, t: Trace, x: Key): set<NodeId> {
    if SendsOp(t.fx, x) then B + {t.id} else B
  }

  /** One node's action keeps the flood going, and settles that node if it was brought `x`. */
  lemma ActFloods(cfg: Config, s: State, id: NodeId, a: Node.Action, x: Key, B: set<NodeId>, pending: set<NodeId>)
    requires Flooding(cfg, s, x, B, pending) && pending <= {id}
    requires ActOn(cfg, s, id, a).Some?
    requires Gentle(cfg.machine, s.nodes[id], a, x)
    requires pending != {} ==> Brings(a, x)
    ensures var p := ActOn(cfg, s, id, a).value;
            && Flooding(cfg, p.0, x, Widened(B, p.1, x), {})
            && (Brings(a, x) ==> id in Widened(B, p.1, x))
  {
    hide Node.Step, NI.Inv, RelayedBy, SendsOp, Node.Holds, Carried, Gentle;
    var p := ActOn(cfg, s, id, a).value;
    var B' := Widened(B, p.1, x);
    var fx := p.1.fx;
    StepSpreads(cfg.machine, s.nodes[id], a, x);
    NI.StepKeepsInv(cfg.machine, s.nodes[id], a);
    var added := Expand(Neighbors(cfg.topology, id), fx);
    forall b, n | b in B' && n in cfg.topology[b] ensures n in B' || Carried(p.0.inflight, n, x) {
      if b in B && Carried(s.inflight, n, x) {
        CarriedMore(s.inflight, added, n, x);
      } else if SendsOp(fx, x) && b == id {
        ExpandCarries(Neighbors(cfg.topology, id), fx, n, x);
        CarriedMore(s.inflight, added, n, x);
      }
    }
  }

  lemma TakenCarried(inflight: multiset<Flight>, f: Flight, n: NodeId, x: Key)
    requires f in inflight && Carried(inflight, n, x)
    ensures (n == f.to && Bears(f, x)) || Carried(inflight - multiset{f}, n, x)
  {
    var g :| g in inflight && g.to == n && Bears(g, x);
    if g != f {
      assert g in inflight - multiset{f};
    }
  }

  /** Taking a flight leaves at most its recipient pending. */
  lemma TakeFloods(cfg: Config, s: State, f: Flight, x: Key, B: set<NodeId>)
    requires Flooding(cfg, s, x, B, {}) && f in s.inflight
    ensures Flooding(cfg, s.(inflight := s.inflight - multiset{f}), x, B, if Bears(f, x) then {f.to} else {})
  {
    hide NI.Inv, RelayedBy, Node.Holds, Carried;
    var s' := s.(inflight := s.inflight - multiset{f});
    forall b, n | b in B && n in cfg.topology[b]
      ensures n in B || (n == f.to && Bears(f, x)) || Carried(s'.inflight, n, x)
    {
      if n !in B {
        TakenCarried(s.inflight, f, n, x);
      }
    }
  }

  lemma DuplicateFloods(cfg: Config, s: State, f: Flight, x: Key, B: set<NodeId>)
    requires Flooding(cfg, s, x, B, {})
    ensures Flooding(cfg, s.(inflight := s.inflight + multiset{f}), x, B, {})
  {
    hide NI.Inv, RelayedBy, Node.Holds, Carried;
    forall b, n | b in B && n in cfg.topology[b] ensures n in B || Carried(s.inflight + multiset{f}, n, x) {
      if n !in B {
        CarriedMore(s.inflight, multiset{f}, n, x);
      }
    }
  }

  /** The step loses no copy of `x`: it drops none on the wire, evicts none, and sheds none. */
  ghost predicate KeepsOp(cfg: Config, s: State, a: Action, x: Key) {
    match a
    case NodeAct(id, na) => id in s.nodes ==> Gentle(cfg.machine, s.nodes[id], na, x)
    case Deliver(f) => f.to in s.nodes ==> Gentle(cfg.machine, s.nodes[f.to], Node.Recv(f.message), x)
    case Drop(f) => !Bears(f, x)
    case Duplicate(_) => true
  }

  /** The step is the authoring of `x`, or the arrival of a copy of it. */
  predicate Starts(a: Action, x: Key) {
    match a
    case NodeAct(_, na) => Brings(na, x)
    case Deliver(f) => Bears(f, x)
    case _ => false
  }

  /** The flood invariant, kept by every step that loses no copy. */
  lemma StepFloods(cfg: Config, s: State, a: Action, s': State, t: Trace, x: Key, B: set<NodeId>)
    requires Flooding(cfg, s, x, B, {}) && KeepsOp(cfg, s, a, x)
    requires Step(cfg, s, a) == R.Some((s', t))
    ensures Flooding(cfg, s', x, Widened(B, t, x), {})
    ensures Starts(a, x) ==> Widened(B, t, x) != {}
  {
    hide ActOn, Gentle, Flooding, SendsOp;
    match a
    case NodeAct(id, na) =>
      ActsOnNode(cfg, s, id, na);
      ActFloods(cfg, s, id, na, x, B, {});
    case Deliver(f) =>
      TakeFloods(cfg, s, f, x, B);
      ActsOnNode(cfg, s.(inflight := s.inflight - multiset{f}), f.to, Node.Recv(f.message));
      ActFloods(cfg, s.(inflight := s.inflight - multiset{f}), f.to, Node.Recv(f.message), x, B,
                if Bears(f, x) then {f.to} else {});
    case Drop(f) =>
      NothingSent(x);
      TakeFloods(cfg, s, f, x, B);
    case Duplicate(f) =>
      NothingSent(x);
      DuplicateFloods(cfg, s, f, x, B);
  }

  lemma ActsOnNode(cfg: Config, s: State, id: NodeId, a: Node.Action)
    requires ActOn(cfg, s, id, a).Some?
    ensures id in s.nodes
  {
  }

  ghost predicate KeepsOpAt(cfg: Config, run: Run, i: nat, x: Key) {
    i < |run.actions| && i < |run.states| && KeepsOp(cfg, run.states[i], run.actions[i], x)
  }

  /** Nodes that have flooded `x` by step `i` of a run. */
  ghost function Flooded(run: Run, x: Key, i: nat): set<NodeId>
    requires i <= |run.traces|
  {
    if i == 0 then {} else Widened(Flooded(run, x, i - 1), run.traces[i - 1], x)
  }

  lemma {:induction false} RunFloods(cfg: Config, run: Run, x: Key, i: nat)
    requires IsRun(cfg, run) && i <= |run.actions|
    requires Flooding(cfg, run.states[0], x, {}, {})
    requires forall j: nat :: j < |run.actions| ==> KeepsOpAt(cfg, run, j, x)
    ensures Flooding(cfg, run.states[i], x, Flooded(run, x, i), {})
    ensures forall j: nat :: j < i && Starts(run.actions[j], x) ==> Flooded(run, x, i) != {}
  {
    hide Flooding, Step, KeepsOp, SendsOp;
    if i > 0 {
      RunFloods(cfg, run, x, i - 1);
      assert StepAt(cfg, run, i - 1) && KeepsOpAt(cfg, run, i - 1, x);
      StepFloods(cfg, run.states[i - 1], run.actions[i - 1], run.states[i], run.traces[i - 1], x,
                 Flooded(run, x, i - 1));
    }
  }

  /** A network at rest with respect to `x`: every node keeps its invariant, and none has `x` in its seen-set.
      Flights may carry it. */
  ghost predicate Quiet(cfg: Config, s: State, x: Key) {
    && s.nodes.Keys == cfg.topology.Keys
    && (forall n :: n in s.nodes ==> NI.Inv(cfg.machine, s.nodes[n]) && !RelayedBy(s.nodes[n], x))
  }

  /** With no copy left on the way, the flood has reached everything. */
  lemma SettledFlood(cfg: Config, s: State, x: Key, B: set<NodeId>)
    requires Flooding(cfg, s, x, B, {}) && B != {} && G.Connected(cfg.topology)
    requires forall f :: f in s.inflight ==> !Bears(f, x)
    ensures forall n :: n in cfg.topology ==> n in s.nodes && Node.Holds(s.nodes[n], x)
  {
    hide NI.Inv, RelayedBy, Node.Holds, G.Connected;
    var b :| b in B;
    forall a, c | a in B && c in cfg.topology[a] ensures c in B {
      assert !Carried(s.inflight, c, x);
    }
    G.ClosedIsEverything(cfg.topology, B, b);
  }

  /** Flood coverage: on a connected topology, over any run that loses no copy of `x` (and may reorder and
      duplicate messages, expire seen-sets, subscribe and author at will), once `x` has been authored and no
      flight carries it any more, every node holds it. */
  lemma FloodReachesEveryNode(cfg: Config, run: Run, x: Key, start: nat)
    requires IsRun(cfg, run) && G.Connected(cfg.topology)
    requires Quiet(cfg, run.states[0], x)
    requires forall j: nat :: j < |run.actions| ==> KeepsOpAt(cfg, run, j, x)
    requires start < |run.actions| && Starts(run.actions[start], x)
    requires forall f :: f in run.states[|run.actions|].inflight ==> !Bears(f, x)
    ensures Everywhere(cfg, run.states[|run.actions|], x)
  {
    hide Step, KeepsOp, StepAt, Flooding, G.Connected, Node.Holds, Bears;
    AtRestFloods(cfg, run.states[0], x);
    RunFloods(cfg, run, x, |run.actions|);
    SettledFlood(cfg, run.states[|run.actions|], x, Flooded(run, x, |run.actions|));
  }

  /** Every node of the network holds `x`. */
  ghost predicate Everywhere(cfg: Config, s: State, x: Key) {
    forall n :: n in cfg.topology ==> n in s.nodes && Node.Holds(s.nodes[n], x)
  }

  lemma AtRestFloods(cfg: Config, s: State, x: Key)
    requires Quiet(cfg, s, x)
    ensures Flooding(cfg, s, x, {}, {})
  {
    hide NI.Inv, RelayedBy;
  }
}

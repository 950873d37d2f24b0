/** What a Want asks for comes to be asked of every node of a connected network. */
module WantFlood {
  import R = Ranges
  import opened Logs
  import LR = LogRanges
  import I = Interests
  import Rt = Router
  import RL = RouterLaws
  import Node
  import NM = NodeMachine
  import G = Graphs
  import opened Storage
  import opened Network

  // ---- One node ----

  ghost predicate Asked(n: Node.State, k: Key) {
    RL.Asked(n.router, k)
  }

  predicate AsksFor(msg: Node.Message, k: Key) {
    msg.body.Want? && I.Asks(msg.body.interest, k)
  }

  /** Some broadcast Want among the effects asks for `k`. */
  predicate SendsAsk(fx: seq<Node.Effect>, k: Key) {
    exists i :: 0 <= i < |fx| && fx[i].Broadcast? && AsksFor(fx[i].message, k)
  }

  predicate BringsAsk(a: Node.Action, k: Key) {
    a.Recv? && AsksFor(a.message, k)
  }

  /** A received Want is broadcast again, unchanged and under this node's name, exactly when it asks for something
      that no Want seen here asks for; otherwise nothing is put out. */
  lemma WantIsRelayed(m: Node.Machine, n: Node.State, from: NodeId, w: I.Interest, n': Node.State, fx: seq<Node.Effect>)
    requires Node.Step(m, n, Node.Recv(Node.Message(from, Node.Want(w)))) == R.Some((n', fx))
    ensures fx == if RL.AsksAnew(n.router, w) then [Node.Broadcast(Node.Message(n.router.id, Node.Want(w)))] else []
    ensures n' == n.(router := n'.router)
    ensures forall k :: Asked(n', k) <==> Asked(n, k) || I.Asks(w, k)
  {
    hide Rt.Step, RL.AsksAnew, RL.Asked, I.Asks, RL.Adoptable, Rt.MyInterest;
    var p := Rt.Step(m.router, n.router, Rt.RecvWant(from, w)).value;
    RL.WantReceived(m.router, n.router, from, w, p.0, p.1);
    OneWant(n', w);
  }

  lemma OneWant(n: Node.State, w: I.Interest)
    ensures Node.Route(n, [Rt.SendWant(w)], map[]) == [Node.Broadcast(Node.Message(n.router.id, Node.Want(w)))]
  {
    assert [Rt.SendWant(w)][1..] == [];
    assert Node.Route(n, [], map[]) == [];
  }

  /** A node's own Want is broadcast as it is fired. */
  lemma WantIsBroadcast(m: Node.Machine, n: Node.State, n': Node.State, fx: seq<Node.Effect>)
    requires Node.Step(m, n, Node.Router(Rt.FireWant)) == R.Some((n', fx))
    ensures n' == n.(router := n'.router)
    ensures forall k: Key :: SendsAsk(fx, k) <==>
              Rt.OfInterest(n.router, k.log.channel) && !LR.Has(n.router.held, k) && RL.Lacks(n.router, k.log.channel)
    ensures forall k :: Asked(n', k) <==> Asked(n, k) || SendsAsk(fx, k)
  {
    hide Rt.Step, RL.Asked, I.Asks, Rt.MyInterest, Rt.OfInterest, RL.Lacks, RL.HeldUnder, LR.Has, SendsAsk;
    var p := Rt.Step(m.router, n.router, Rt.FireWant).value;
    RL.WantFired(m.router, n.router, p.0, p.1);
    if p.1 == [] {
      NothingAsked();
      forall k ensures Asked(n', k) <==> Asked(n, k) {
        SameSeen(n, n', k);
      }
    } else {
      var w := p.1[0].interest;
      assert p.1 == [Rt.SendWant(w)];
      OneWant(n', w);
      OneAsks(n', w);
      RL.AskedMore(n.router, n'.router, Rt.SeenWant(w, m.router.wantTtl));
    }
  }

  lemma NothingAsked()
    ensures forall k :: !SendsAsk([], k) && !I.Asks(map[], k)
  {
  }

  lemma OneAsks(n: Node.State, w: I.Interest)
    ensures forall k :: SendsAsk([Node.Broadcast(Node.Message(n.router.id, Node.Want(w)))], k) <==> I.Asks(w, k)
  {
    hide I.Asks;
    var fx := [Node.Broadcast(Node.Message(n.router.id, Node.Want(w)))];
    forall k | I.Asks(w, k) ensures SendsAsk(fx, k) {
      assert fx[0].Broadcast? && AsksFor(fx[0].message, k);
    }
  }

  /** Whatever a node does: it comes to be asked for `k` only by broadcasting an ask for it, and when a Want brings it
      one, it has been asked already or broadcasts it. */
  lemma StepSpreadsAsk(m: Node.Machine, n: Node.State, a: Node.Action, n': Node.State, fx: seq<Node.Effect>, k: Key)
    requires Node.Step(m, n, a) == R.Some((n', fx))
    ensures Asked(n', k) ==> Asked(n, k) || SendsAsk(fx, k)
    ensures BringsAsk(a, k) ==> Asked(n, k) || SendsAsk(fx, k)
    ensures SendsAsk(fx, k) ==> Asked(n', k)
  {
    hide Rt.Step, RL.Asked, I.Asks, SendsAsk, Node.Routed, Node.ReceivedHave, Node.PushRanges, Node.Subscribed,
         Node.Unsubscribed, Node.IngestedExt, Node.Reconcile, Rt.OfInterest, RL.Lacks, LR.Has, RL.AsksAnew;
    NothingAsked();
    match a
    case Router(ra) =>
      if ra.FireWant? {
        WantIsBroadcast(m, n, n', fx);
      } else {
        RoutedAsks(m, n, ra, n', fx, k);
      }
    case Recv(msg) =>
      match msg.body {
        case Want(w) =>
          WantIsRelayed(m, n, msg.sender, w, n', fx);
          OneAsks(n, w);
          if I.Asks(w, k) && !Asked(n, k) {
            AnewAt(n.router, w, k);
          }
        case Have(ops) => HaveAsksNothing(m, n, msg.sender, ops, n', fx, k);
      }
    case Authored(key, op) => AuthoredAsks(m, n, key, op, n', fx, k);
    case _ => StoreActionAsks(m, n, a, n', fx, k);
  }

  lemma AnewAt(s: Rt.State, w: I.Interest, k: Key)
    requires I.Asks(w, k) && !RL.Asked(s, k)
    ensures RL.AsksAnew(s, w)
  {
  }

  /** Router actions that send no Want leave what is asked as it is, or let it be forgotten. */
  lemma QuietAction(cfg: Rt.Config, s: Rt.State, a: Rt.Action, s': Rt.State, fx: seq<Rt.Effect>, k: Key)
    requires Rt.Step(cfg, s, a) == R.Some((s', fx)) && !a.FireWant? && !a.RecvWant?
    ensures RL.Asked(s', k) ==> RL.Asked(s, k)
    ensures forall e :: e in fx ==> !e.SendWant?
  {
    Rt.SeenStep(cfg, s, a, s', fx);
    NoWants(cfg, s, a, s', fx);
    hide Rt.Step, I.Asks;
    if a.Tick? && RL.Asked(s', k) {
      var w :| w in s'.seen && I.Asks(w.interest, k);
      Rt.AgeSeenFrom(s.seen, a.dur, w);
    }
  }

  lemma NoWants(cfg: Rt.Config, s: Rt.State, a: Rt.Action, s': Rt.State, fx: seq<Rt.Effect>)
    requires Rt.Step(cfg, s, a) == R.Some((s', fx)) && !a.FireWant? && !a.RecvWant?
    ensures forall e :: e in fx ==> !e.SendWant?
  {
    hide LR.IsEmpty, LR.Difference, LR.Union, Rt.RelayOf, Rt.NetworkAsk, Rt.NextHave, Rt.Ticked;
  }

  lemma {:induction false} RoutesNoAsk(n: Node.State, fx: seq<Rt.Effect>, parked: OpsMap, k: Key)
    requires forall e :: e in fx ==> !e.SendWant?
    ensures !SendsAsk(Node.Route(n, fx, parked), k)
  {
    hide I.Asks, SendsAsk, Node.RouteOne;
    NothingAsked();
    if fx != [] {
      var one, rest := Node.RouteOne(n, fx[0], parked), Node.Route(n, fx[1..], parked);
      RoutesNoAsk(n, fx[1..], parked, k);
      RouteOneAsksNothing(n, fx[0], parked, k);
      SendsAskConcat(one, rest, k);
    }
  }

  lemma SendsAskConcat(a: seq<Node.Effect>, b: seq<Node.Effect>, k: Key)
    ensures SendsAsk(a + b, k) ==> SendsAsk(a, k) || SendsAsk(b, k)
  {
    hide AsksFor;
    var all := a + b;
    if SendsAsk(all, k) {
      var i :| 0 <= i < |all| && all[i].Broadcast? && AsksFor(all[i].message, k);
      assert all[i] == if i < |a| then a[i] else b[i - |a|];
    }
  }

  lemma RouteOneAsksNothing(n: Node.State, e: Rt.Effect, parked: OpsMap, k: Key)
    requires !e.SendWant?
    ensures !SendsAsk(Node.RouteOne(n, e, parked), k)
  {
    hide I.Asks, LR.Has, Node.Hydrated;
  }

  lemma RoutedAsks(m: Node.Machine, n: Node.State, ra: Rt.Action, n': Node.State, fx: seq<Node.Effect>, k: Key)
    requires Node.Routed(m, n, ra) == R.Some((n', fx)) && !ra.FireWant? && !ra.RecvWant?
    ensures Asked(n', k) ==> Asked(n, k)
    ensures !SendsAsk(fx, k)
  {
    hide Rt.Step, RL.Asked, Node.Route, SendsAsk;
    var p := Rt.Step(m.router, n.router, ra).value;
    QuietAction(m.router, n.router, ra, p.0, p.1, k);
    RoutesNoAsk(n', p.1, map[], k);
  }

  lemma HaveAsksNothing(m: Node.Machine, n: Node.State, from: NodeId, ops: OpsMap, n': Node.State, fx: seq<Node.Effect>,
                        k: Key)
    requires Node.ReceivedHave(m, n, from, ops) == R.Some((n', fx))
    ensures Asked(n', k) ==> Asked(n, k)
    ensures !SendsAsk(fx, k)
  {
    hide Rt.Step, I.Asks, Node.Route, SendsAsk, LR.OfKeys, SortedKeys, Node.HeldUnion, Node.IngestAll, Node.IngestBatch;
    var a := Rt.RecvHave(from, LR.OfKeys(ops.Keys));
    var p := Rt.Step(m.router, n.router, a).value;
    QuietAction(m.router, n.router, a, p.0, p.1, k);
    RoutesNoAsk(n', p.1, ops, k);
  }

  lemma AuthoredAsks(m: Node.Machine, n: Node.State, key: Key, op: Op, n': Node.State, fx: seq<Node.Effect>, k: Key)
    requires Node.PushRanges(m, Node.IngestedExt(n, key, op), LR.Singleton(key)) == R.Some((n', fx))
    ensures Asked(n', k) ==> Asked(n, k)
    ensures !SendsAsk(fx, k)
  {
    hide Node.Routed, RL.Asked, I.Asks, SendsAsk, Node.HeldUnion, LR.Singleton;
    RoutedAsks(m, Node.IngestedExt(n, key, op), Rt.Push(LR.Singleton(key)), n', fx, k);
    SameSeen(n, Node.IngestedExt(n, key, op), k);
  }

  lemma SameSeen(n: Node.State, n': Node.State, k: Key)
    requires n'.router.seen == n.router.seen
    ensures Asked(n', k) <==> Asked(n, k)
  {
    hide I.Asks;
  }

  lemma StoreActionAsks(m: Node.Machine, n: Node.State, a: Node.Action, n': Node.State, fx: seq<Node.Effect>, k: Key)
    requires Node.Step(m, n, a) == R.Some((n', fx)) && !a.Router? && !a.Recv? && !a.Authored?
    ensures Asked(n', k) <==> Asked(n, k)
    ensures fx == []
  {
    hide Node.HeldUnion, RL.Asked;
    SameSeen(n, n', k);
  }

  // ---- A network ----

  /** Some flight brings `n` an ask for `k`. */
  ghost predicate Borne(inflight: multiset<Flight>, n: NodeId, k: Key) {
    exists f :: f in inflight && f.to == n && AsksFor(f.message, k)
  }

  /** `B` has broadcast asks for `k`: each neighbour has too, has one on the way, or is `pending`; and whoever is
      asked is of `B`. */
  ghost predicate Asking(cfg: Config, s: State, k: Key, B: set<NodeId>, pending: set<NodeId>) {
    && s.nodes.Keys == cfg.topology.Keys
    && B <= s.nodes.Keys
    && (forall b, n :: b in B && n in cfg.topology[b] ==> n in B || n in pending || Borne(s.inflight, n, k))
    && (forall n :: n in s.nodes && Asked(s.nodes[n], k) ==> n in B)
  }

  lemma {:induction false} ExpandBears(peers: set<NodeId>, fx: seq<Node.Effect>, n: NodeId, k: Key)
    requires SendsAsk(fx, k) && n in peers
    ensures Borne(Expand(peers, fx), n, k)
    decreases |fx|
  {
    hide AsksFor;
    var i :| 0 <= i < |fx| && fx[i].Broadcast? && AsksFor(fx[i].message, k);
    if i == 0 {
      var f := Flight(n, fx[0].message);
      assert f in Copies(peers, fx[0].message);
      assert f in Expand(peers, fx) && f.to == n && AsksFor(f.message, k);
    } else {
      assert fx[1..][i - 1] == fx[i];
      ExpandBears(peers, fx[1..], n, k);
      var f :| f in Expand(peers, fx[1..]) && f.to == n && AsksFor(f.message, k);
      assert f in Expand(peers, fx);
    }
  }

  lemma BorneMore(a: multiset<Flight>, b: multiset<Flight>, n: NodeId, k: Key)
    requires Borne(a, n, k) || Borne(b, n, k)
    ensures Borne(a + b, n, k)
  {
    hide AsksFor;
    if Borne(a, n, k) {
      var f :| f in a && f.to == n && AsksFor(f.message, k);
      assert f in a + b;
    }
    if Borne(b, n, k) {
      var f :| f in b && f.to == n && AsksFor(f.message, k);
      assert f in a + b;
    }
  }

  ghost function Widened(B: set<NodeId>, t: Trace, k: Key): set<NodeId> {
    if SendsAsk(t.fx, k) then B + {t.id} else B
  }

  lemma ActSpreads(cfg: Config, s: State, id: NodeId, a: Node.Action, s': State, t: Trace, k: Key, B: set<NodeId>,
                   pending: set<NodeId>)
    requires Asking(cfg, s, k, B, pending) && pending <= {id}
    requires ActOn(cfg, s, id, a) == R.Some((s', t))
    requires pending != {} ==> BringsAsk(a, k)
    ensures Asking(cfg, s', k, Widened(B, t, k), {})
    ensures SendsAsk(t.fx, k) ==> id in s'.nodes && Asked(s'.nodes[id], k) && t.id == id
  {
    hide Node.Step, Asked, SendsAsk, Borne, BringsAsk;
    var p := Node.Step(cfg.machine, s.nodes[id], a).value;
    StepSpreadsAsk(cfg.machine, s.nodes[id], a, p.0, p.1, k);
    var B' := Widened(B, t, k);
    var added := Expand(Neighbors(cfg.topology, id), p.1);
    forall b, n | b in B' && n in cfg.topology[b] ensures n in B' || Borne(s'.inflight, n, k) {
      if b in B && Borne(s.inflight, n, k) {
        BorneMore(s.inflight, added, n, k);
      } else if SendsAsk(p.1, k) && b == id {
        ExpandBears(Neighbors(cfg.topology, id), p.1, n, k);
        BorneMore(s.inflight, added, n, k);
      }
    }
  }

  lemma TakeAsk(cfg: Config, s: State, f: Flight, k: Key, B: set<NodeId>)
    requires Asking(cfg, s, k, B, {}) && f in s.inflight
    ensures Asking(cfg, s.(inflight := s.inflight - multiset{f}), k, B, if AsksFor(f.message, k) then {f.to} else {})
  {
    hide Asked, AsksFor;
    var s' := s.(inflight := s.inflight - multiset{f});
    forall b, n | b in B && n in cfg.topology[b]
      ensures n in B || (n == f.to && AsksFor(f.message, k)) || Borne(s'.inflight, n, k)
    {
      if n !in B {
        var g :| g in s.inflight && g.to == n && AsksFor(g.message, k);
        if g != f {
          assert g in s'.inflight;
        }
      }
    }
  }

  lemma RepeatAsk(cfg: Config, s: State, f: Flight, k: Key, B: set<NodeId>)
    requires Asking(cfg, s, k, B, {})
    ensures Asking(cfg, s.(inflight := s.inflight + multiset{f}), k, B, {})
  {
    hide Asked, Borne;
    forall b, n | b in B && n in cfg.topology[b] ensures n in B || Borne(s.inflight + multiset{f}, n, k) {
      if n !in B {
        BorneMore(s.inflight, multiset{f}, n, k);
      }
    }
  }

  /** The step loses no ask for `k` on the wire. */
  predicate KeepsAsk(a: Action, k: Key) {
    a.Drop? ==> !AsksFor(a.flight.message, k)
  }

  /** Kept by every step that loses none. */
  lemma StepKeepsAsking(cfg: Config, s: State, a: Action, s': State, t: Trace, k: Key, B: set<NodeId>)
    requires Asking(cfg, s, k, B, {}) && KeepsAsk(a, k)
    requires Step(cfg, s, a) == R.Some((s', t))
    ensures Asking(cfg, s', k, Widened(B, t, k), {})
    ensures SendsAsk(t.fx, k) ==> t.id in s'.nodes && Asked(s'.nodes[t.id], k)
  {
    hide ActOn, Asking, SendsAsk, AsksFor, Asked;
    NothingAsked();
    match a
    case NodeAct(id, na) => ActSpreads(cfg, s, id, na, s', t, k, B, {});
    case Deliver(f) =>
      TakeAsk(cfg, s, f, k, B);
      ActSpreads(cfg, s.(inflight := s.inflight - multiset{f}), f.to, Node.Recv(f.message), s', t, k, B,
                 if AsksFor(f.message, k) then {f.to} else {});
    case Drop(f) => TakeAsk(cfg, s, f, k, B);
    case Duplicate(f) => RepeatAsk(cfg, s, f, k, B);
  }

  // ---- A run ----

  ghost function Askers(run: Run, k: Key, i: nat): set<NodeId>
    requires i <= |run.traces|
  {
    if i == 0 then {} else Widened(Askers(run, k, i - 1), run.traces[i - 1], k)
  }

  /** At some point of the run's first `i` steps, the node has been asked for `k`. */
  ghost predicate WasAsked(run: Run, n: NodeId, k: Key, i: nat) {
    exists j: nat :: j <= i && AskedAt(run, n, k, j)
  }

  ghost predicate AskedAt(run: Run, n: NodeId, k: Key, j: nat) {
    j < |run.states| && n in run.states[j].nodes && Asked(run.states[j].nodes[n], k)
  }

  lemma {:induction false} RunKeepsAsking(cfg: Config, run: Run, k: Key, i: nat)
    requires IsRun(cfg, run) && i <= |run.actions|
    requires Asking(cfg, run.states[0], k, {}, {})
    requires forall j: nat :: j < |run.actions| ==> KeepsAsk(run.actions[j], k)
    ensures Asking(cfg, run.states[i], k, Askers(run, k, i), {})
    ensures forall n :: n in Askers(run, k, i) ==> WasAsked(run, n, k, i)
    ensures forall j: nat :: j < i && SendsAsk(run.traces[j].fx, k) ==> Askers(run, k, i) != {}
  {
    hide Asking, Step, KeepsAsk, SendsAsk, Asked;
    if i > 0 {
      RunKeepsAsking(cfg, run, k, i - 1);
      assert StepAt(cfg, run, i - 1);
      StepKeepsAsking(cfg, run.states[i - 1], run.actions[i - 1], run.states[i], run.traces[i - 1], k, Askers(run, k, i - 1));
      forall n | n in Askers(run, k, i) ensures WasAsked(run, n, k, i) {
        if n in Askers(run, k, i - 1) {
          var j: nat :| j <= i - 1 && AskedAt(run, n, k, j);
        } else {
          assert AskedAt(run, n, k, i);
        }
      }
    }
  }

  lemma SettledAsk(cfg: Config, s: State, k: Key, B: set<NodeId>)
    requires Asking(cfg, s, k, B, {}) && B != {} && G.Connected(cfg.topology)
    requires forall f :: f in s.inflight ==> !AsksFor(f.message, k)
    ensures cfg.topology.Keys <= B
  {
    hide Asked, G.Connected, AsksFor;
    var b :| b in B;
    forall a, c | a in B && c in cfg.topology[a] ensures c in B {
      assert !Borne(s.inflight, c, k);
    }
    G.ClosedIsEverything(cfg.topology, B, b);
  }

  /** Want coverage: on a connected topology where nobody has been asked for `k`, over any run that drops no ask for it
      (and may reorder and duplicate messages, forget Wants and do anything else), once a node has broadcast a Want
      that asks for `k` and no flight carries an ask for it any more, every node has been asked. */
  lemma WantReachesEveryNode(cfg: Config, run: Run, k: Key, start: nat)
    requires IsRun(cfg, run) && G.Connected(cfg.topology)
    requires run.states[0].nodes.Keys == cfg.topology.Keys
    requires forall n :: n in run.states[0].nodes ==> !Asked(run.states[0].nodes[n], k)
    requires forall j: nat :: j < |run.actions| ==> KeepsAsk(run.actions[j], k)
    requires start < |run.actions| && SendsAsk(run.traces[start].fx, k)
    requires forall f :: f in run.states[|run.actions|].inflight ==> !AsksFor(f.message, k)
    ensures forall n :: n in cfg.topology ==> WasAsked(run, n, k, |run.actions|)
  {
    hide StepAt, KeepsAsk, SendsAsk, AsksFor, Asked, WasAsked, G.Connected;
    NobodyAsks(cfg, run.states[0], k);
    RunKeepsAsking(cfg, run, k, |run.actions|);
    SettledAsk(cfg, run.states[|run.actions|], k, Askers(run, k, |run.actions|));
  }

  lemma NobodyAsks(cfg: Config, s: State, k: Key)
    requires s.nodes.Keys == cfg.topology.Keys
    requires forall n :: n in s.nodes ==> !Asked(s.nodes[n], k)
    ensures Asking(cfg, s, k, {}, {})
  {
    hide Asked;
  }
}

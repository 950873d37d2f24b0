/** Which ops are reported to the application: what a Have brings of subscribed logs that was not held, each once. */
module Deliveries {
  import R = Ranges
  import opened Logs
  import LR = LogRanges
  import Rt = Router
  import RL = RouterLaws
  import Node
  import NI = NodeInvariant
  import NodeFlood
  import opened Storage

  /** How often the router's decisions accept `k`. */
  function Accepts(fx: seq<Rt.Effect>, k: Key): nat {
    if fx == [] then 0 else (if fx[0].Accept? && LR.Has(fx[0].ranges, k) then 1 else 0) + Accepts(fx[1..], k)
  }

  lemma {:induction false} AcceptsSnoc(fx: seq<Rt.Effect>, e: Rt.Effect, k: Key)
    ensures Accepts(fx + [e], k) == Accepts(fx, k) + if e.Accept? && LR.Has(e.ranges, k) then 1 else 0
  {
    hide LR.Has;
    if fx == [] {
      assert [e][1..] == [] && fx + [e] == [e];
    } else {
      AcceptsSnoc(fx[1..], e, k);
      assert (fx + [e])[1..] == fx[1..] + [e] && (fx + [e])[0] == fx[0];
    }
  }

  /** A receipt of a Have accepts a key at most once. */
  lemma AcceptsOnce(fx: seq<Rt.Effect>, k: Key)
    requires |fx| <= 2 && (|fx| == 2 ==> fx[0].Accept? && fx[1].SendHave?)
    ensures Accepts(fx, k) == if RL.AcceptsKey(fx, k) then 1 else 0
  {
    hide LR.Has;
    if |fx| == 2 {
      assert fx[1..] == [fx[1]] && [fx[1]][1..] == [];
      assert Accepts([fx[1]], k) == 0;
      assert fx[0] in fx;
    } else if |fx| == 1 {
      assert fx[1..] == [] && fx[0] in fx;
    }
  }

  lemma CountConcat<T>(a: seq<T>, b: seq<T>, x: T)
    ensures multiset(a + b)[x] == multiset(a)[x] + multiset(b)[x]
  {
  }

  /** Sorted keys are each reported once. */
  lemma {:induction false} ListedOnce(keys: seq<Key>, k: Key)
    requires Sorted(keys)
    ensures multiset(Node.DeliverAll(keys))[Node.Deliver(k)] == if k in keys then 1 else 0
  {
    var fx := Node.DeliverAll(keys);
    if keys != [] {
      var front, last := keys[..|keys| - 1], keys[|keys| - 1];
      ListedOnce(front, k);
      assert fx == Node.DeliverAll(front) + [Node.Deliver(last)];
      CountConcat(Node.DeliverAll(front), [Node.Deliver(last)], Node.Deliver(k));
      assert keys == front + [last];
      if k in front {
        var i :| 0 <= i < |front| && front[i] == k;
        assert KeyLess(keys[i], keys[|keys| - 1]);
        KeyLessTotal(k, last);
      }
    }
  }

  /** What is routed reports each parked op of a subscribed log as often as the router accepts it. */
  lemma {:induction false} RouteReports(n: Node.State, fx: seq<Rt.Effect>, parked: OpsMap, k: Key)
    ensures multiset(Node.Route(n, fx, parked))[Node.Deliver(k)]
         == if k in parked && k.log.channel in n.subs then Accepts(fx, k) else 0
  {
    hide Node.RouteOne, LR.Has;
    if fx != [] {
      RouteReports(n, fx[1..], parked, k);
      RouteOneReports(n, fx[0], parked, k);
      CountConcat(Node.RouteOne(n, fx[0], parked), Node.Route(n, fx[1..], parked), Node.Deliver(k));
    }
  }

  lemma RouteOneReports(n: Node.State, e: Rt.Effect, parked: OpsMap, k: Key)
    ensures multiset(Node.RouteOne(n, e, parked))[Node.Deliver(k)]
         == if e.Accept? && LR.Has(e.ranges, k) && k in parked && k.log.channel in n.subs then 1 else 0
  {
    hide LR.Has, Node.Hydrated;
    match e
    case Accept(novel) => ListedOnce(SortedKeys(Node.Delivered(n.subs, novel, parked)), k);
    case SendWant(interest) => NoReport(Node.Broadcast(Node.Message(n.router.id, Node.Want(interest))), k);
    case SendHave(r) =>
      var ops := Node.Hydrated(n.relay, n.ext, r);
      NoReport(Node.Broadcast(Node.Message(n.router.id, Node.Have(ops))), k);
  }

  lemma NoReport(e: Node.Effect, k: Key)
    requires e.Broadcast?
    ensures multiset([e])[Node.Deliver(k)] == 0
  {
  }

  /** On a Have, exactly its ops of subscribed logs that were not held before are reported, each once; nothing is
      reported otherwise. */
  lemma ReportedExactly(m: Node.Machine, n: Node.State, a: Node.Action, n': Node.State, fx: seq<Node.Effect>, k: Key)
    requires NI.Inv(m, n) && Node.Step(m, n, a) == R.Some((n', fx))
    ensures multiset(fx)[Node.Deliver(k)]
         == if a.Recv? && a.message.body.Have? && k in a.message.body.ops && k.log.channel in n.subs && !Node.Holds(n, k)
            then 1 else 0
  {
    hide NI.Inv, Node.Routed, Node.ReceivedHave, Node.Holds, Node.Reconcile, Node.IngestedExt, LR.Singleton;
    match a
    case Router(ra) => RoutedReportsNothing(m, n, ra, n', fx, k);
    case Recv(msg) =>
      match msg.body {
        case Want(w) => RoutedReportsNothing(m, n, Rt.RecvWant(msg.sender, w), n', fx, k);
        case Have(ops) => HaveReports(m, n, msg.sender, ops, n', fx, k);
      }
    case Authored(key, op) =>
      RoutedReportsNothing(m, Node.IngestedExt(n, key, op), Rt.Push(LR.Singleton(key)), n', fx, k);
    case _ =>
  }

  lemma RoutedReportsNothing(m: Node.Machine, n: Node.State, ra: Rt.Action, n': Node.State, fx: seq<Node.Effect>, k: Key)
    requires Node.Routed(m, n, ra) == R.Some((n', fx)) && !ra.RecvHave?
    ensures multiset(fx)[Node.Deliver(k)] == 0
  {
    hide Rt.Step, Node.Route;
    var p := Rt.Step(m.router, n.router, ra).value;
    RouteReports(n', p.1, map[], k);
  }

  lemma HaveReports(m: Node.Machine, n: Node.State, from: NodeId, ops: OpsMap, n': Node.State, fx: seq<Node.Effect>, k: Key)
    requires NI.Inv(m, n) && Node.ReceivedHave(m, n, from, ops) == R.Some((n', fx))
    ensures multiset(fx)[Node.Deliver(k)] == if k in ops && k.log.channel in n.subs && !Node.Holds(n, k) then 1 else 0
  {
    hide Rt.Step, Node.Route, LR.Has, Node.IngestAll, Node.IngestBatch, Node.HeldUnion, SortedKeys, NI.Inv, Node.Holds,
         RL.AcceptsKey, Rt.Relayed, Rt.SendsKey;
    var ranges := LR.OfKeys(ops.Keys);
    var p := Rt.Step(m.router, n.router, Rt.RecvHave(from, ranges)).value;
    RouteReports(n', p.1, ops, k);
    RL.HaveReceived(m.router, n.router, from, ranges, p.0, p.1);
    AcceptsOnce(p.1, k);
    NodeFlood.HeldMeansHolds(m, n, k);
  }
}

/** Flooding an op through one node. */
module NodeFlood {
  import R = Ranges
  import opened Logs
  import LR = LogRanges
  import Rt = Router
  import opened Storage
  import Node
  import NI = NodeInvariant

  ghost predicate RelayedBy(n: Node.State, x: Key) {
    Rt.Relayed(n.router.relayed, x)
  }

  /** Some broadcast Have among the effects carries `x`. */
  predicate SendsOp(fx: seq<Node.Effect>, x: Key) {
    exists i :: 0 <= i < |fx| && CarriesOp(fx[i], x)
  }

  predicate CarriesOp(e: Node.Effect, x: Key) {
    e.Broadcast? && e.message.body.Have? && x in e.message.body.ops
  }

  lemma SendsOpConcat(a: seq<Node.Effect>, b: seq<Node.Effect>, x: Key)
    ensures SendsOp(a + b, x) <==> SendsOp(a, x) || SendsOp(b, x)
  {
    if SendsOp(a, x) {
      var i :| 0 <= i < |a| && CarriesOp(a[i], x);
      assert (a + b)[i] == a[i];
    }
    if SendsOp(b, x) {
      var i :| 0 <= i < |b| && CarriesOp(b[i], x);
      assert (a + b)[|a| + i] == b[i];
    }
  }

  lemma RouteOneSends(n: Node.State, e: Rt.Effect, parked: OpsMap, x: Key)
    ensures SendsOp(Node.RouteOne(n, e, parked), x) <==> e.SendHave? && LR.Has(e.ranges, x) && Node.Holds(n, x)
  {
    if e.SendHave? {
      var ops := Node.Hydrated(n.relay, n.ext, e.ranges);
      assert x in ops <==> LR.Has(e.ranges, x) && Node.Holds(n, x);
      hide LR.Has, Node.Hydrated;
      if ops != map[] {
        var fx := Node.RouteOne(n, e, parked);
        assert fx == [Node.Broadcast(Node.Message(n.router.id, Node.Have(ops)))];
        assert CarriesOp(fx[0], x) <==> x in ops;
      }
    }
  }

  /** What is routed onward carries exactly the held part of what the router decided to send. */
  lemma {:induction false} RouteSends(n: Node.State, fx: seq<Rt.Effect>, parked: OpsMap, x: Key)
    ensures SendsOp(Node.Route(n, fx, parked), x) <==> Rt.SendsKey(fx, x) && Node.Holds(n, x)
  {
    hide LR.Has, Node.RouteOne, Node.Holds, SendsOp;
    if fx == [] {
      NothingSent(x);
    } else {
      RouteOneSends(n, fx[0], parked, x);
      RouteSends(n, fx[1..], parked, x);
      SendsOpConcat(Node.RouteOne(n, fx[0], parked), Node.Route(n, fx[1..], parked), x);
      assert fx == [fx[0]] + fx[1..];
    }
  }

  lemma NothingSent(x: Key)
    ensures !SendsOp([], x)
  {
  }

  // ---- The router's part ----

  lemma {:induction false} NotedIsSent(cfg: Rt.Config, fx: seq<Rt.Effect>, x: Key)
    ensures Rt.Relayed(Rt.Noted(cfg, fx), x) <==> Rt.SendsKey(fx, x)
  {
    hide LR.Has;
    if fx != [] {
      NotedIsSent(cfg, fx[1..], x);
      assert fx == [fx[0]] + fx[1..];
      var first := if fx[0].SendHave? then [Rt.Record(fx[0].ranges, cfg.haveTtl)] else [];
      assert Rt.Noted(cfg, fx) == first + Rt.Noted(cfg, fx[1..]);
      RelayedConcat(first, Rt.Noted(cfg, fx[1..]), x);
      assert Rt.Relayed(first, x) <==> fx[0].SendHave? && LR.Has(fx[0].ranges, x) by {
        if fx[0].SendHave? && LR.Has(fx[0].ranges, x) {
          assert LR.Has(first[0].ranges, x);
        }
      }
    }
  }

  lemma RelayedConcat(a: seq<Rt.Record>, b: seq<Rt.Record>, x: Key)
    ensures Rt.Relayed(a + b, x) <==> Rt.Relayed(a, x) || Rt.Relayed(b, x)
  {
    if Rt.Relayed(a, x) {
      var i :| 0 <= i < |a| && LR.Has(a[i].ranges, x);
      assert (a + b)[i] == a[i];
    }
    if Rt.Relayed(b, x) {
      var i :| 0 <= i < |b| && LR.Has(b[i].ranges, x);
      assert (a + b)[|a| + i] == b[i];
    }
  }

  lemma AgedWasRelayed(rs: seq<Rt.Record>, d: Time, x: Key)
    requires Rt.Relayed(Rt.AgeRecords(rs, d), x)
    ensures Rt.Relayed(rs, x)
  {
    var aged := Rt.AgeRecords(rs, d);
    var i :| 0 <= i < |aged| && LR.Has(aged[i].ranges, x);
    Rt.AgeRecordsFrom(rs, d, aged[i]);
    var r := aged[i].(ttlLeft := aged[i].ttlLeft + d);
    var j :| 0 <= j < |rs| && rs[j] == r;
    assert LR.Has(rs[j].ranges, x);
  }

  /** A router notes exactly what it sends, and what it notes only a tick forgets. */
  lemma RouterSpreads(cfg: Rt.Config, s: Rt.State, a: Rt.Action, s': Rt.State, fx: seq<Rt.Effect>, x: Key)
    requires Rt.Step(cfg, s, a) == R.Some((s', fx))
    ensures Rt.Relayed(s'.relayed, x) ==> Rt.Relayed(s.relayed, x) || Rt.SendsKey(fx, x)
    ensures !a.Tick? && (Rt.Relayed(s.relayed, x) || Rt.SendsKey(fx, x)) ==> Rt.Relayed(s'.relayed, x)
  {
    Rt.RelayedStep(cfg, s, a, s', fx);
    hide Rt.Step, Rt.Relayed, Rt.SendsKey;
    if a.Tick? {
      if Rt.Relayed(s'.relayed, x) {
        AgedWasRelayed(s.relayed, a.dur, x);
      }
    } else {
      RelayedConcat(s.relayed, Rt.Noted(cfg, fx), x);
      NotedIsSent(cfg, fx, x);
    }
  }

  /** Where what a router sends comes from: what it holds, what it received, what it was pushed. */
  lemma SentFrom(cfg: Rt.Config, s: Rt.State, a: Rt.Action, s': Rt.State, fx: seq<Rt.Effect>, x: Key)
    requires Rt.Step(cfg, s, a) == R.Some((s', fx)) && Rt.SendsKey(fx, x)
    ensures a.FireHave? || a.RecvHave? || a.Push?
    ensures a.FireHave? ==> LR.Has(s.held, x)
    ensures a.RecvHave? || a.Push? ==> LR.Has(a.ranges, x) && !Rt.Relayed(s.relayed, x)
  {
    var e :| e in fx && e.SendHave? && LR.Has(e.ranges, x);
    if a.RecvHave? || a.Push? {
      Rt.OnlyUnrelayedIsSent(cfg, s, a, s', fx, e);
      assert LR.Has(Rt.RelayOf(s, a.ranges), x);
    } else {
      SentElsewhere(cfg, s, a, s', fx, e);
      assert LR.Has(Rt.NextHave(s), x);
    }
  }

  lemma SentElsewhere(cfg: Rt.Config, s: Rt.State, a: Rt.Action, s': Rt.State, fx: seq<Rt.Effect>, e: Rt.Effect)
    requires Rt.Step(cfg, s, a) == R.Some((s', fx)) && !a.RecvHave? && !a.Push?
    requires e in fx && e.SendHave?
    ensures a.FireHave? && e.ranges == Rt.NextHave(s)
  {
    hide LR.IsEmpty, LR.Difference, LR.Union, Rt.RelayOf, Rt.RecentHaves, Rt.NetworkAsk, Rt.NextHave, Rt.NextWant;
  }

  /** What arrives or is pushed is sent on unless it was already. */
  lemma ArrivalIsSent(cfg: Rt.Config, s: Rt.State, a: Rt.Action, s': Rt.State, fx: seq<Rt.Effect>, x: Key)
    requires Rt.Step(cfg, s, a) == R.Some((s', fx)) && (a.RecvHave? || a.Push?)
    requires LR.Has(a.ranges, x)
    ensures Rt.Relayed(s.relayed, x) || Rt.SendsKey(fx, x)
  {
    var relay := Rt.RelayOf(s, a.ranges);
    if !Rt.Relayed(s.relayed, x) {
      assert LR.Has(relay, x);
      LR.EmptyHasNothing(relay);
      ArrivalEffect(cfg, s, a, s', fx);
      assert Rt.SendHave(relay) in fx;
    }
  }

  lemma ArrivalEffect(cfg: Rt.Config, s: Rt.State, a: Rt.Action, s': Rt.State, fx: seq<Rt.Effect>)
    requires Rt.Step(cfg, s, a) == R.Some((s', fx)) && (a.RecvHave? || a.Push?)
    requires !LR.IsEmpty(Rt.RelayOf(s, a.ranges))
    ensures Rt.SendHave(Rt.RelayOf(s, a.ranges)) in fx
  {
    hide LR.IsEmpty, LR.Difference, LR.Union, Rt.RelayOf;
  }

  // ---- The node's part ----

  /** The action neither evicts `x` nor sheds it on arrival. */
  ghost predicate Gentle(m: Node.Machine, n: Node.State, a: Node.Action, x: Key) {
    match a
    case AppGc(r) => !LR.Has(r, x)
    case RelayEvict(r) => !LR.Has(r, x)
    case Recv(msg) =>
      msg.body.Have? && x in msg.body.ops ==>
        Node.Holds(n, x)
        || !Node.Sheds(m.cap, n.subs, Node.Stores(n.relay, n.ext), SortedKeys(msg.body.ops.Keys), msg.body.ops, x)
    case _ => true
  }

  predicate Brings(a: Node.Action, x: Key) {
    (a.Recv? && a.message.body.Have? && x in a.message.body.ops) || (a.Authored? && a.key == x)
  }

  /** What one step of a node does to the spread of `x`. */
  ghost predicate Spreads(n: Node.State, a: Node.Action, n': Node.State, fx: seq<Node.Effect>, x: Key) {
    && n'.router.id == n.router.id
    && (SendsOp(fx, x) ==> Node.Holds(n', x))
    && (RelayedBy(n', x) ==> RelayedBy(n, x) || SendsOp(fx, x))
    && (Node.Holds(n, x) ==> Node.Holds(n', x))
    && (Brings(a, x) ==> Node.Holds(n', x) && (RelayedBy(n, x) || SendsOp(fx, x)))
  }

  lemma HeldMeansHolds(m: Node.Machine, n: Node.State, x: Key)
    requires NI.Inv(m, n)
    ensures LR.Has(n.router.held, x) <==> Node.Holds(n, x)
  {
    hide LR.Has, Usage;
  }

  lemma RoutedSpreads(m: Node.Machine, n: Node.State, ra: Rt.Action, a: Node.Action, x: Key)
    requires Node.Routed(m, n, ra).Some? && NI.Inv(m, n)
    requires !ra.RecvHave? && !ra.Held? && !ra.Open?
    requires ra.Push? ==> (LR.Has(ra.ranges, x) ==> Node.Holds(n, x))
    requires Brings(a, x) ==> ra.Push? && LR.Has(ra.ranges, x)
    ensures var p := Node.Routed(m, n, ra).value; Spreads(n, a, p.0, p.1, x)
  {
    hide Rt.Step, Node.Route, Rt.SendsKey, Rt.Relayed, SendsOp, LR.Has, NI.Inv;
    HeldMeansHolds(m, n, x);
    var p := Rt.Step(m.router, n.router, ra).value;
    RoutedSends(m.router, n.router, ra, p.0, p.1, x);
    RouteSends(n.(router := p.0), p.1, map[], x);
  }

  lemma RoutedSends(cfg: Rt.Config, s: Rt.State, ra: Rt.Action, s': Rt.State, fx: seq<Rt.Effect>, x: Key)
    requires Rt.Step(cfg, s, ra) == R.Some((s', fx)) && !ra.RecvHave?
    ensures s'.id == s.id
    ensures Rt.SendsKey(fx, x) ==> LR.Has(s.held, x) || (ra.Push? && LR.Has(ra.ranges, x))
    ensures Rt.Relayed(s'.relayed, x) ==> Rt.Relayed(s.relayed, x) || Rt.SendsKey(fx, x)
    ensures ra.Push? && LR.Has(ra.ranges, x) ==> Rt.Relayed(s.relayed, x) || Rt.SendsKey(fx, x)
  {
    hide Rt.Step, Rt.SendsKey, Rt.Relayed, LR.Has;
    NI.RouterFrame(cfg, s, ra, s', fx);
    RouterSpreads(cfg, s, ra, s', fx, x);
    if Rt.SendsKey(fx, x) {
      SentFrom(cfg, s, ra, s', fx, x);
    }
    if ra.Push? && LR.Has(ra.ranges, x) {
      ArrivalIsSent(cfg, s, ra, s', fx, x);
    }
  }

  lemma ArrivalRouted(cfg: Rt.Config, s: Rt.State, from: NodeId, keys: set<Key>, s': Rt.State, fx: seq<Rt.Effect>, x: Key)
    requires Rt.Step(cfg, s, Rt.RecvHave(from, LR.OfKeys(keys))) == R.Some((s', fx))
    ensures s'.id == s.id
    ensures Rt.SendsKey(fx, x) ==> x in keys
    ensures Rt.Relayed(s'.relayed, x) ==> Rt.Relayed(s.relayed, x) || Rt.SendsKey(fx, x)
    ensures x in keys ==> Rt.Relayed(s.relayed, x) || Rt.SendsKey(fx, x)
  {
    var ra := Rt.RecvHave(from, LR.OfKeys(keys));
    NI.RouterFrame(cfg, s, ra, s', fx);
    RouterSpreads(cfg, s, ra, s', fx, x);
    assert LR.Has(ra.ranges, x) <==> x in keys;
    hide LR.Has, Rt.Step, Rt.Relayed, Rt.SendsKey;
    if Rt.SendsKey(fx, x) {
      SentFrom(cfg, s, ra, s', fx, x);
    }
    if x in keys {
      ArrivalIsSent(cfg, s, ra, s', fx, x);
    }
  }

  lemma IngestedHolds(cap: nat, subs: set<Channel>, st: Node.Stores, parked: OpsMap, x: Key)
    requires x in parked ==> x in st.relay || x in st.ext || !Node.Sheds(cap, subs, st, SortedKeys(parked.Keys), parked, x)
    ensures var st' := Node.IngestAll(cap, subs, st, SortedKeys(parked.Keys), parked);
            (x in parked || x in st.relay || x in st.ext) ==> (x in st'.relay || x in st'.ext)
  {
    NI.IngestAllFacts(cap, subs, st, SortedKeys(parked.Keys), parked);
    hide Node.Sheds, Node.IngestAll;
  }

  lemma ReceivedHaveSpreads(m: Node.Machine, n: Node.State, msg: Node.Message, x: Key)
    requires msg.body.Have? && Node.ReceivedHave(m, n, msg.sender, msg.body.ops).Some?
    requires Gentle(m, n, Node.Recv(msg), x)
    ensures var p := Node.ReceivedHave(m, n, msg.sender, msg.body.ops).value;
            Spreads(n, Node.Recv(msg), p.0, p.1, x)
  {
    hide Rt.Step, Node.Route, Rt.SendsKey, Rt.Relayed, SendsOp, LR.Has, Node.IngestAll, Node.Sheds, Node.HeldUnion,
         LR.OfKeys, SortedKeys;
    var parked := msg.body.ops;
    var p := Rt.Step(m.router, n.router, Rt.RecvHave(msg.sender, LR.OfKeys(parked.Keys))).value;
    var st0 := Node.Stores(n.relay, n.ext);
    var st := Node.IngestAll(m.cap, n.subs, st0, SortedKeys(parked.Keys), parked);
    var n1 := Node.Reconcile(n.(router := p.0, relay := st.relay, ext := st.ext));
    IngestedHolds(m.cap, n.subs, st0, parked, x);
    ArrivalRouted(m.router, n.router, msg.sender, parked.Keys, p.0, p.1, x);
    RouteSends(n1, p.1, parked, x);
  }

  lemma StoreActionSpreads(m: Node.Machine, n: Node.State, a: Node.Action, x: Key)
    requires a.Subscribe? || a.Unsubscribe? || a.NativeSync? || a.AppGc? || a.RelayEvict? || a.RelayEvictPayloads?
    requires Gentle(m, n, a, x)
    ensures var p := Node.Step(m, n, a).value; Spreads(n, a, p.0, p.1, x)
  {
    hide LR.Has, Node.HeldUnion, Rt.Relayed;
  }

  lemma PushedSpreads(m: Node.Machine, n0: Node.State, k: Key, op: Op, x: Key)
    requires NI.Inv(m, n0) && Node.Holds(n0, k) && Node.PushRanges(m, n0, LR.Singleton(k)).Some?
    ensures var p := Node.PushRanges(m, n0, LR.Singleton(k)).value; Spreads(n0, Node.Authored(k, op), p.0, p.1, x)
  {
    hide Rt.Step, Node.Route, Rt.Relayed, SendsOp, LR.Has, Node.HeldUnion, LR.Singleton, NI.Inv, Spreads;
    assert LR.Has(LR.Singleton(k), x) <==> x == k;
    RoutedSpreads(m, n0, Rt.Push(LR.Singleton(k)), Node.Authored(k, op), x);
  }

  lemma IngestedExtFacts(m: Node.Machine, n: Node.State, k: Key, op: Op, x: Key)
    requires NI.Inv(m, n)
    ensures var n0 := Node.IngestedExt(n, k, op);
            && NI.Inv(m, n0) && Node.Holds(n0, k) && (Node.Holds(n, x) ==> Node.Holds(n0, x))
            && n0.router.id == n.router.id && n0.router.relayed == n.router.relayed
  {
    hide Node.HeldUnion, NI.Inv, Evict;
    NI.ExtActionsKeepInv(m, n, 0, k, op, LR.EMPTY);
  }

  lemma AuthoredSpreads(m: Node.Machine, n: Node.State, k: Key, op: Op, x: Key)
    requires NI.Inv(m, n) && Node.PushRanges(m, Node.IngestedExt(n, k, op), LR.Singleton(k)).Some?
    ensures var p := Node.PushRanges(m, Node.IngestedExt(n, k, op), LR.Singleton(k)).value;
            Spreads(n, Node.Authored(k, op), p.0, p.1, x)
  {
    hide Node.PushRanges, SendsOp, Node.IngestedExt, LR.Singleton, NI.Inv, Rt.Relayed, Node.Holds;
    IngestedExtFacts(m, n, k, op, x);
    PushedSpreads(m, Node.IngestedExt(n, k, op), k, op, x);
  }

  lemma StepSpreads(m: Node.Machine, n: Node.State, a: Node.Action, x: Key)
    requires NI.Inv(m, n) && Node.Step(m, n, a).Some? && Gentle(m, n, a, x)
    ensures var p := Node.Step(m, n, a).value; Spreads(n, a, p.0, p.1, x)
  {
    hide NI.Inv, Spreads;
    match a
    case Router(ra) => RoutedSpreads(m, n, ra, a, x);
    case Recv(msg) =>
      match msg.body {
        case Want(interest) => RoutedSpreads(m, n, Rt.RecvWant(msg.sender, interest), a, x);
        case Have(ops) => ReceivedHaveSpreads(m, n, msg, x);
      }
    case Authored(k, op) => AuthoredSpreads(m, n, k, op, x);
    case _ => StoreActionSpreads(m, n, a, x);
  }
}

/** The node's transition as it runs: the router's transition, the stores' loops, and routing. */
module NodeMachine {
  import R = Ranges
  import opened Logs
  import LR = LogRanges
  import Rt = Router
  import RM = RouterMachine
  import H = Hydrate
  import opened Storage
  import opened Node

  /** `held_all`: the ranges of everything in a store. */
  method HeldOfAll(m: OpsMap) returns (r: LR.LogRanges)
    ensures r == HeldAll(m)
  {
    hide LR.OfKeys;
    var keys := SortedKeys(m.Keys);
    SameKeys(keys, m);
    r := H.RangesOf(keys);
  }

  method OneKey(k: Key) returns (r: LR.LogRanges)
    ensures r == LR.Singleton(k)
  {
    r := H.RangesOf([k]);
    assert (set x | x in [k]) == {k};
  }

  /** `reconcile_held`: the router is told of everything in either store. */
  method ReconcileHeld(n0: State) returns (n: State)
    ensures n == Reconcile(n0)
  {
    var relay := HeldOfAll(n0.relay);
    var ext := HeldOfAll(n0.ext);
    n := n0.(router := n0.router.(held := LR.Union(relay, ext)));
  }

  lemma {:induction false} RouteSnoc(n: State, fx: seq<Rt.Effect>, e: Rt.Effect, parked: OpsMap)
    ensures Route(n, fx + [e], parked) == Route(n, fx, parked) + RouteOne(n, e, parked)
  {
    hide RouteOne;
    if fx == [] {
      assert [e][1..] == [] && fx + [e] == [e];
      assert Route(n, [e], parked) == RouteOne(n, e, parked) + Route(n, [e][1..], parked);
    } else {
      RouteSnoc(n, fx[1..], e, parked);
      assert (fx + [e])[1..] == fx[1..] + [e] && (fx + [e])[0] == fx[0];
    }
  }

  lemma {:induction false} RouteSame(n: State, n': State, fx: seq<Rt.Effect>, parked: OpsMap)
    requires n.router.id == n'.router.id && n.relay == n'.relay && n.ext == n'.ext && n.subs == n'.subs
    ensures Route(n, fx, parked) == Route(n', fx, parked)
  {
    if fx != [] {
      RouteSame(n, n', fx[1..], parked);
      RouteOneSame(n, n', fx[0], parked);
      hide RouteOne;
    }
  }

  lemma RouteOneSame(n: State, n': State, e: Rt.Effect, parked: OpsMap)
    requires n.router.id == n'.router.id && n.relay == n'.relay && n.ext == n'.ext && n.subs == n'.subs
    ensures RouteOne(n, e, parked) == RouteOne(n', e, parked)
  {
    hide LR.Has, Hydrated;
  }

  lemma {:induction false} RouteConcat(n: State, a: seq<Rt.Effect>, b: seq<Rt.Effect>, parked: OpsMap)
    ensures Route(n, a + b, parked) == Route(n, a, parked) + Route(n, b, parked)
  {
    hide RouteOne;
    if a == [] {
      assert a + b == b;
    } else {
      RouteConcat(n, a[1..], b, parked);
      assert (a + b)[1..] == a[1..] + b;
    }
  }

  /** `route_router_fx`, in effect order. */
  method RouteFx(n: State, fx: seq<Rt.Effect>, parked: OpsMap) returns (out: seq<Effect>)
    ensures out == Route(n, fx, parked)
  {
    out := [];
    hide RouteOne;
    for i := 0 to |fx|
      invariant out == Route(n, fx[..i], parked)
    {
      RouteSnoc(n, fx[..i], fx[i], parked);
      assert fx[..i + 1] == fx[..i] + [fx[i]];
      out := out + RouteOne(n, fx[i], parked);
    }
    assert fx[..|fx|] == fx;
  }

  method RoutedOn(m: Machine, n: State, a: Rt.Action) returns (r: Option<(State, seq<Effect>)>)
    ensures r == Routed(m, n, a)
  {
    hide Rt.Step, Route;
    var p := RM.Transition(m.router, n.router, a);
    if p.None? { return R.None; }
    var n1 := n.(router := p.value.0);
    var out := RouteFx(n1, p.value.1, map[]);
    return R.Some((n1, out));
  }

  method ReceivedHaveOn(m: Machine, n: State, from: NodeId, parked: OpsMap) returns (r: Option<(State, seq<Effect>)>)
    ensures r == ReceivedHave(m, n, from, parked)
  {
    hide Rt.Step, Route, Reconcile, IngestAll, LR.OfKeys;
    var keys := SortedKeys(parked.Keys);
    var ranges := H.RangesOf(keys);
    SameKeys(keys, parked);
    var p := RM.Transition(m.router, n.router, Rt.RecvHave(from, ranges));
    if p.None? { return R.None; }
    var ok, relay, ext := IngestParked(m.cap, n.subs, n.relay, n.ext, parked);
    var n1 := ReconcileHeld(n.(router := p.value.0, relay := relay, ext := ext));
    var out := RouteFx(n1, p.value.1, parked);
    return R.Some((n1, out));
  }

  lemma SameKeys(keys: seq<Key>, m: OpsMap)
    requires keys == SortedKeys(m.Keys)
    ensures (set k | k in keys) == m.Keys
  {
  }

  method SubscribedOn(n0: State, c: Channel) returns (n: State)
    ensures n == Subscribed(n0, c)
  {
    hide LogsUnder, WithoutChannel, MovedExt, HeldUnion;
    var subs := n0.subs + {c};
    var all := HeldOfAll(n0.relay);
    var under := ChannelFull(all, c);
    UnderIs(n0.relay, all, c);
    var relay, ext := Migrate(n0.relay, n0.ext, c, under);
    n := ReconcileHeld(n0.(subs := subs, relay := relay, ext := ext, router := n0.router.(openChannels := subs)));
  }

  lemma UnderIs(relay: OpsMap, all: LR.LogRanges, c: Channel)
    requires all == HeldAll(relay)
    ensures ChannelFull(all, c) == LogsUnder(relay, c)
  {
  }

  /** `NodeMachine::transition`. */
  method Transition(m: Machine, n: State, a: Action) returns (r: Option<(State, seq<Effect>)>)
    ensures r == Step(m, n, a)
  {
    hide Routed, ReceivedHave, Subscribed, HeldUnion, Evict, EvictPayloads, LR.Singleton;
    var n1: State;
    match a {
      case Router(ra) =>
        if !Direct(ra) { return R.None; }
        r := RoutedOn(m, n, ra);
        return;
      case Recv(msg) =>
        match msg.body {
          case Want(interest) => r := RoutedOn(m, n, Rt.RecvWant(msg.sender, interest));
          case Have(ops) => r := ReceivedHaveOn(m, n, msg.sender, ops);
        }
        return;
      case Authored(k, op) =>
        n1 := ReconcileHeld(n.(ext := Ingest(n.ext, k, op)));
        var ranges := OneKey(k);
        r := RoutedOn(m, n1, Rt.Push(ranges));
        return;
      case Subscribe(c) =>
        n1 := SubscribedOn(n, c);
      case Unsubscribe(c) =>
        n1 := ReconcileHeld(n.(subs := n.subs - {c}, router := n.router.(openChannels := n.subs - {c})));
      case NativeSync(k, op) =>
        n1 := ReconcileHeld(n.(ext := Ingest(n.ext, k, op)));
      case AppGc(ranges) =>
        n1 := ReconcileHeld(n.(ext := Evict(n.ext, ranges)));
      case RelayEvict(ranges) =>
        n1 := ReconcileHeld(n.(relay := Evict(n.relay, ranges)));
      case RelayEvictPayloads(ranges) =>
        n1 := ReconcileHeld(n.(relay := EvictPayloads(n.relay, ranges)));
    }
    return R.Some((n1, []));
  }
}

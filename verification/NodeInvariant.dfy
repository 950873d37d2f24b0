/** What every node keeps, in every state it can reach. */
module NodeInvariant {
  import R = Ranges
  import opened Logs
  import LR = LogRanges
  import Rt = Router
  import opened Storage
  import opened Node

  /** The router's view is the stores' contents, structurally; its open channels are the
      subscriptions; the relay is under its cap and holds nothing under a subscribed channel. */
  ghost predicate Inv(m: Machine, n: State) {
    && n.router.held == HeldUnion(n.relay, n.ext)
    && n.router.openChannels == n.subs
    && (forall k :: k in n.relay ==> k.log.channel !in n.subs)
    && Usage(n.relay) <= m.cap
  }

  lemma FreshNode(m: Machine, id: NodeId, subs: set<Channel>)
    ensures Inv(m, New(id, subs))
  {
    assert PayloadKeys(map[]) == {};
  }

  // ---- Frames ----

  /** What a router action leaves alone. */
  lemma RouterFrame(cfg: Rt.Config, s: Rt.State, a: Rt.Action, s': Rt.State, fx: seq<Rt.Effect>)
    requires Rt.Step(cfg, s, a) == R.Some((s', fx))
    ensures s'.id == s.id
    ensures !a.Open? ==> s'.openChannels == s.openChannels
    ensures !a.Held? && !a.Push? && !a.RecvHave? ==> s'.held == s.held
    ensures a.Push? ==> s'.held == LR.Union(s.held, a.ranges)
  {
    hide LR.IsEmpty, LR.Difference, LR.Union, Rt.RelayOf, Rt.NetworkAsk, Rt.NextHave, Rt.NextWant, Rt.Adopted;
  }

  lemma IngestOneFacts(cap: nat, subs: set<Channel>, st: Stores, k: Key, op: Op)
    ensures var st' := IngestOne(cap, subs, st, k, op);
            && st.relay.Keys <= st'.relay.Keys <= st.relay.Keys + {k}
            && st.ext.Keys <= st'.ext.Keys <= st.ext.Keys + {k}
            && (k in st'.relay ==> k in st.relay || k.log.channel !in subs)
            && (k in st'.ext ==> k in st.ext || k.log.channel in subs)
            && (Usage(st.relay) <= cap ==> Usage(st'.relay) <= cap)
            && (k in st'.relay || k in st'.ext || (k.log.channel !in subs && OverCap(cap, st.relay, k, op)))
  {
    DeltaIsGrowth(st.relay, k, op);
  }

  /** Ingesting adds only parked keys, each on its own side; nothing held is lost; the cap is kept;
      a parked op that is not shed is held. */
  lemma {:induction false} IngestAllFacts(cap: nat, subs: set<Channel>, st: Stores, keys: seq<Key>, parked: OpsMap)
    requires forall k :: k in keys ==> k in parked
    ensures var st' := IngestAll(cap, subs, st, keys, parked);
            && st.relay.Keys <= st'.relay.Keys && st.ext.Keys <= st'.ext.Keys
            && (forall k :: k in st'.relay ==> k in st.relay || (k in keys && k.log.channel !in subs))
            && (forall k :: k in st'.ext ==> k in st.ext || (k in keys && k.log.channel in subs))
            && (Usage(st.relay) <= cap ==> Usage(st'.relay) <= cap)
            && (forall k :: k in keys && !Sheds(cap, subs, st, keys, parked, k) ==> k in st'.relay || k in st'.ext)
    decreases |keys|
  {
    hide Usage, OverCap;
    if keys != [] {
      var mid := IngestOne(cap, subs, st, keys[0], parked[keys[0]]);
      IngestOneFacts(cap, subs, st, keys[0], parked[keys[0]]);
      hide IngestOne;
      IngestAllFacts(cap, subs, mid, keys[1..], parked);
    }
  }

  // ---- Preservation ----

  lemma RoutedKeepsInv(m: Machine, n: State, a: Rt.Action)
    requires Inv(m, n) && Routed(m, n, a).Some? && !a.RecvHave? && !a.Held? && !a.Open?
    requires a.Push? ==> LR.Clean(a.ranges) && forall k :: LR.Has(a.ranges, k) ==> Holds(n, k)
    ensures Inv(m, Routed(m, n, a).value.0)
  {
    var p := Rt.Step(m.router, n.router, a).value;
    RouterFrame(m.router, n.router, a, p.0, p.1);
    hide Rt.Step;
    if a.Push? {
      LR.UnionAbsorbs(n.router.held, a.ranges);
    }
  }

  lemma ReceivedHaveKeepsInv(m: Machine, n: State, from: NodeId, parked: OpsMap)
    requires Inv(m, n) && ReceivedHave(m, n, from, parked).Some?
    ensures Inv(m, ReceivedHave(m, n, from, parked).value.0)
  {
    hide Rt.Step, IngestAll, Usage, Route;
    var a := Rt.RecvHave(from, LR.OfKeys(parked.Keys));
    var p := Rt.Step(m.router, n.router, a).value;
    RouterFrame(m.router, n.router, a, p.0, p.1);
    IngestAllFacts(m.cap, n.subs, Stores(n.relay, n.ext), SortedKeys(parked.Keys), parked);
  }

  lemma SubscribeKeepsInv(m: Machine, n: State, c: Channel)
    requires Inv(m, n)
    ensures Inv(m, Subscribed(n, c))
  {
    UsageMonotone(WithoutChannel(n.relay, c), n.relay);
    hide Usage, HeldUnion;
  }

  lemma RelayShrinkKeepsInv(m: Machine, n: State, relay: OpsMap)
    requires Inv(m, n)
    requires relay.Keys <= n.relay.Keys
    requires forall k :: k in relay && relay[k].payload.Some? ==> n.relay[k].payload.Some?
    ensures Inv(m, Reconcile(n.(relay := relay)))
  {
    hide Usage, HeldUnion, PayloadKeys;
    UsageMonotone(relay, n.relay);
  }

  lemma RelayEvictKeepsInv(m: Machine, n: State, r: LogRanges)
    requires Inv(m, n)
    ensures Inv(m, Reconcile(n.(relay := Evict(n.relay, r))))
    ensures Inv(m, Reconcile(n.(relay := EvictPayloads(n.relay, r))))
  {
    hide Inv, LR.Has, HeldUnion;
    RelayShrinkKeepsInv(m, n, Evict(n.relay, r));
    RelayShrinkKeepsInv(m, n, EvictPayloads(n.relay, r));
  }

  lemma ExtActionsKeepInv(m: Machine, n: State, c: Channel, k: Key, op: Op, r: LogRanges)
    requires Inv(m, n)
    ensures Inv(m, Unsubscribed(n, c))
    ensures Inv(m, IngestedExt(n, k, op))
    ensures Inv(m, Reconcile(n.(ext := Evict(n.ext, r))))
  {
    hide Usage, HeldUnion, LR.Has;
  }

  /** The node invariant is kept by every action. */
  lemma StepKeepsInv(m: Machine, n: State, a: Action)
    requires Inv(m, n) && Step(m, n, a).Some?
    ensures Inv(m, Step(m, n, a).value.0)
  {
    hide HeldUnion, Usage, Routed, ReceivedHave, Evict, EvictPayloads;
    match a
    case Router(ra) => RoutedKeepsInv(m, n, ra);
    case Recv(msg) =>
      match msg.body {
        case Want(interest) => RoutedKeepsInv(m, n, Rt.RecvWant(msg.sender, interest));
        case Have(ops) => ReceivedHaveKeepsInv(m, n, msg.sender, ops);
      }
    case Authored(k, op) =>
      ExtActionsKeepInv(m, n, 0, k, op, LR.EMPTY);
      RoutedKeepsInv(m, IngestedExt(n, k, op), Rt.Push(LR.Singleton(k)));
    case Subscribe(c) => SubscribeKeepsInv(m, n, c);
    case Unsubscribe(c) => ExtActionsKeepInv(m, n, c, Key(Log(c, Author(0, 0)), 0), Op([], R.None), LR.EMPTY);
    case NativeSync(k, op) => ExtActionsKeepInv(m, n, 0, k, op, LR.EMPTY);
    case AppGc(r) => ExtActionsKeepInv(m, n, 0, Key(Log(0, Author(0, 0)), 0), Op([], R.None), r);
    case RelayEvict(r) => RelayEvictKeepsInv(m, n, r);
    case RelayEvictPayloads(r) => RelayEvictKeepsInv(m, n, r);
  }

  /** A message from another node is always accepted: neither the router nor, over a whole Have, the relay machine
      refuses. */
  lemma RecvNeverErrors(m: Machine, n: State, msg: Message)
    requires msg.sender != n.router.id
    ensures Step(m, n, Recv(msg)).Some?
  {
    hide Rt.ReceivedHave, Rt.ReceivedWant, Route, IngestAll, Reconcile;
  }

  /** Subscribing changes neither what is held nor, for any held key, whether its payload is. */
  lemma SubscribeConserves(m: Machine, n: State, c: Channel)
    requires Inv(m, n)
    ensures var n' := Subscribed(n, c);
            && n'.router.held == n.router.held
            && (forall k :: Holds(n', k) <==> Holds(n, k))
            && (forall k :: Holds(n, k) ==>
                  (BestCopy(n'.relay, n'.ext, k).payload.Some? <==> BestCopy(n.relay, n.ext, k).payload.Some?))
  {
    HeldUnionOfKeys(n.relay, n.ext, WithoutChannel(n.relay, c), MovedExt(n.relay, n.ext, c));
    hide HeldUnion;
    forall k | Holds(n, k)
      ensures BestCopy(Subscribed(n, c).relay, Subscribed(n, c).ext, k).payload.Some?
              <==> BestCopy(n.relay, n.ext, k).payload.Some?
    {
      MovedPayload(n.relay, n.ext, c, k);
    }
  }

  lemma MovedPayload(relay: OpsMap, ext: OpsMap, c: Channel, k: Key)
    requires k in relay || k in ext
    ensures BestCopy(WithoutChannel(relay, c), MovedExt(relay, ext, c), k).payload.Some?
            <==> BestCopy(relay, ext, k).payload.Some?
  {
  }

  // ---- Runs ----

  datatype Run = Run(states: seq<State>, actions: seq<Action>)

  ghost predicate StepAt(m: Machine, run: Run, i: nat) {
    i < |run.actions| && i + 1 < |run.states|
    && Step(m, run.states[i], run.actions[i]).Some?
    && Step(m, run.states[i], run.actions[i]).value.0 == run.states[i + 1]
  }

  ghost predicate IsRun(m: Machine, run: Run) {
    && |run.states| == |run.actions| + 1
    && forall i: nat :: i < |run.actions| ==> StepAt(m, run, i)
  }

  /** The invariant holds in every state of every run of a fresh node. */
  lemma {:induction false} InvOverRun(m: Machine, run: Run, id: NodeId, subs: set<Channel>, i: nat)
    requires IsRun(m, run) && run.states[0] == New(id, subs) && i <= |run.actions|
    ensures Inv(m, run.states[i])
  {
    hide Step, Inv;
    if i == 0 {
      FreshNode(m, id, subs);
    } else {
      InvOverRun(m, run, id, subs, i - 1);
      assert StepAt(m, run, i - 1);
      StepKeepsInv(m, run.states[i - 1], run.actions[i - 1]);
    }
  }
}

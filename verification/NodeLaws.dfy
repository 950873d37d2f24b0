/** What each action does to the copies a node holds, key by key, and which copies it sends. */
module NodeLaws {
  import R = Ranges
  import opened Logs
  import LR = LogRanges
  import Rt = Router
  import RL = RouterLaws
  import NI = NodeInvariant
  import opened Storage
  import opened Node

  type Option<T> = R.Option<T>

  function CopyOf(m: OpsMap, k: Key): Option<Op> {
    if k in m then R.Some(m[k]) else R.None
  }

  predicate HasPayloadIn(copy: Option<Op>) {
    copy.Some? && copy.value.payload.Some?
  }

  /** A store that had `was` was given `op`: it has either, a payload if either has one, and no payload is ever
      replaced, nor a copy by one that is no better. */
  predicate Took(was: Option<Op>, op: Op, now: Option<Op>) {
    && (now == was || now == R.Some(op)) && now.Some?
    && (HasPayloadIn(now) <==> HasPayloadIn(was) || op.payload.Some?)
    && (was.Some? && (HasPayloadIn(was) || op.payload.None?) ==> now == was)
  }

  /** Two copies became one: as good as the better. */
  predicate Merged(a: Option<Op>, b: Option<Op>, now: Option<Op>) {
    && (now == a || now == b) && (now.Some? <==> a.Some? || b.Some?)
    && (HasPayloadIn(now) <==> HasPayloadIn(a) || HasPayloadIn(b))
  }

  /** With what the relay holds, the op would take it over its cap. */
  ghost predicate NoRoom(m: Machine, n: State, k: Key, op: Op) {
    m.cap < Usage(n.relay) + UnitsOver(CopyOf(n.relay, k), op)
  }

  /** What an op costs a store that has `was`: one unit for the op and one for its payload, where it has not got
      them. */
  function UnitsOver(was: Option<Op>, op: Op): nat {
    (if was.Some? then 0 else 1) + (if op.payload.Some? && !HasPayloadIn(was) then 1 else 0)
  }

  /** The copies of `k` after an action, from those before it. */
  ghost predicate CopiesAfter(m: Machine, n: State, a: Action, n': State, k: Key) {
    var relay, ext, relay', ext' := CopyOf(n.relay, k), CopyOf(n.ext, k), CopyOf(n'.relay, k), CopyOf(n'.ext, k);
    match a
    case AppGc(r) => relay' == relay && ext' == if LR.Has(r, k) then R.None else ext
    case RelayEvict(r) => ext' == ext && relay' == if LR.Has(r, k) then R.None else relay
    case RelayEvictPayloads(r) =>
      && ext' == ext
      && if !LR.Has(r, k) || relay.None? then relay' == relay
         else relay'.Some? && relay'.value.header == relay.value.header && relay'.value.payload.None?
    case NativeSync(key, op) => relay' == relay && if k == key then Took(ext, op, ext') else ext' == ext
    case Authored(key, op) => relay' == relay && if k == key then Took(ext, op, ext') else ext' == ext
    case Subscribe(c) =>
      if k.log.channel == c then relay'.None? && Merged(relay, ext, ext') else relay' == relay && ext' == ext
    case Unsubscribe(_) => relay' == relay && ext' == ext
    case Router(_) => relay' == relay && ext' == ext
    case Recv(msg) =>
      if msg.body.Want? || k !in msg.body.ops then relay' == relay && ext' == ext
      else if k.log.channel in n.subs then relay' == relay && Took(ext, msg.body.ops[k], ext')
      else ext' == ext && (Took(relay, msg.body.ops[k], relay') || (relay' == relay && NoRoom(m, n', k, msg.body.ops[k])))
  }

  /** What every action does to the stores, and to what is subscribed. */
  lemma StepCopies(m: Machine, n: State, a: Action, n': State, fx: seq<Effect>, k: Key)
    requires Step(m, n, a) == R.Some((n', fx))
    ensures CopiesAfter(m, n, a, n', k)
    ensures n'.subs == (match a case Subscribe(c) => n.subs + {c} case Unsubscribe(c) => n.subs - {c} case _ => n.subs)
    ensures !a.Router? && !a.Recv? && !a.Authored? ==>
              fx == [] && n'.router == n.router.(held := HeldUnion(n'.relay, n'.ext), openChannels := n'.router.openChannels)
  {
    hide LR.Has, HeldUnion, Routed, ReceivedHave, Took, LR.Singleton, NoRoom;
    match a
    case Router(ra) => RoutedCopies(m, n, ra, n', fx);
    case Authored(key, op) =>
      RoutedCopies(m, IngestedExt(n, key, op), Rt.Push(LR.Singleton(key)), n', fx);
      IngestTakes(n.ext, key, op);
    case NativeSync(key, op) => IngestTakes(n.ext, key, op);
    case Recv(msg) =>
      match msg.body {
        case Want(w) => RoutedCopies(m, n, Rt.RecvWant(msg.sender, w), n', fx);
        case Have(ops) => ReceivedCopies(m, n, msg.sender, ops, n', fx, k);
      }
    case _ =>
  }

  lemma RoutedCopies(m: Machine, n: State, ra: Rt.Action, n': State, fx: seq<Effect>)
    requires Routed(m, n, ra) == R.Some((n', fx))
    ensures n'.relay == n.relay && n'.ext == n.ext && n'.subs == n.subs
  {
    hide Rt.Step, Route;
  }

  lemma IngestTakes(m: OpsMap, k: Key, op: Op)
    ensures Took(CopyOf(m, k), op, CopyOf(Ingest(m, k, op), k))
    ensures forall x :: x != k ==> CopyOf(Ingest(m, k, op), x) == CopyOf(m, x)
  {
  }

  lemma ReceivedCopies(m: Machine, n: State, from: NodeId, ops: OpsMap, n': State, fx: seq<Effect>, k: Key)
    requires ReceivedHave(m, n, from, ops) == R.Some((n', fx))
    ensures n'.subs == n.subs
    ensures if k !in ops then CopyOf(n'.relay, k) == CopyOf(n.relay, k) && CopyOf(n'.ext, k) == CopyOf(n.ext, k)
            else if k.log.channel in n.subs then
              CopyOf(n'.relay, k) == CopyOf(n.relay, k) && Took(CopyOf(n.ext, k), ops[k], CopyOf(n'.ext, k))
            else CopyOf(n'.ext, k) == CopyOf(n.ext, k)
                 && (Took(CopyOf(n.relay, k), ops[k], CopyOf(n'.relay, k))
                     || (CopyOf(n'.relay, k) == CopyOf(n.relay, k) && NoRoom(m, n', k, ops[k])))
  {
    hide Rt.Step, Route, HeldUnion, CopyOf, Took, IngestAll, UnitsOver, Usage;
    AllCopies(m.cap, n.subs, Stores(n.relay, n.ext), SortedKeys(ops.Keys), ops, k);
  }

  /** Each parked op is given to its own side once, and to no other; the relay takes it unless there is no room. */
  lemma {:induction false} AllCopies(cap: nat, subs: set<Channel>, st: Stores, keys: seq<Key>, parked: OpsMap, k: Key)
    requires Sorted(keys) && forall k :: k in keys ==> k in parked
    ensures var st' := IngestAll(cap, subs, st, keys, parked);
            && Usage(st.relay) <= Usage(st'.relay)
            && if k !in keys then CopyOf(st'.relay, k) == CopyOf(st.relay, k) && CopyOf(st'.ext, k) == CopyOf(st.ext, k)
               else if k.log.channel in subs then
                 CopyOf(st'.relay, k) == CopyOf(st.relay, k) && Took(CopyOf(st.ext, k), parked[k], CopyOf(st'.ext, k))
               else CopyOf(st'.ext, k) == CopyOf(st.ext, k)
                    && (Took(CopyOf(st.relay, k), parked[k], CopyOf(st'.relay, k))
                        || (CopyOf(st'.relay, k) == CopyOf(st.relay, k)
                            && cap < Usage(st'.relay) + UnitsOver(CopyOf(st'.relay, k), parked[k])))
    decreases |keys|
  {
    hide CopyOf, Took, Ingest, IngestDelta, Usage, UnitsOver;
    if keys != [] {
      var op := parked[keys[0]];
      IngestTakes(st.relay, keys[0], op);
      IngestTakes(st.ext, keys[0], op);
      DeltaIsUnits(st.relay, keys[0], op);
      DeltaIsGrowth(st.relay, keys[0], op);
      AllCopies(cap, subs, IngestOne(cap, subs, st, keys[0], op), keys[1..], parked, k);
    }
  }

  lemma DeltaIsUnits(m: OpsMap, k: Key, op: Op)
    ensures IngestDelta(m, k, op) == UnitsOver(CopyOf(m, k), op)
  {
  }

  // ---- What is refused ----

  /** A node refuses its own messages, and of its router's actions those that the router refuses and those that only
      messages and the stores may cause; and nothing else. */
  lemma StepsIffPossible(m: Machine, n: State, a: Action)
    ensures Step(m, n, a).Some? <==>
              match a
              case Router(ra) => (ra.Tick? || ra.ArmWantTimer? || ra.ArmHaveTimer? || ra.FireWant? || ra.FireHave?)
                                 && RL.Possible(n.router, ra)
              case Recv(msg) => msg.sender != n.router.id
              case _ => true
  {
    hide Rt.Step, Route, HeldUnion, IngestAll, IngestBatch, LR.OfKeys, LR.Singleton, LR.Has;
    match a
    case Router(ra) => RL.StepsIffPossible(m.router, n.router, ra);
    case Recv(msg) =>
      match msg.body {
        case Want(w) => RL.StepsIffPossible(m.router, n.router, Rt.RecvWant(msg.sender, w));
        case Have(ops) => RL.StepsIffPossible(m.router, n.router, Rt.RecvHave(msg.sender, LR.OfKeys(ops.Keys)));
      }
    case Authored(key, op) =>
      assert LR.Has(LR.Singleton(key), key);
      RL.StepsIffPossible(m.router, IngestedExt(n, key, op).router, Rt.Push(LR.Singleton(key)));
    case _ =>
  }

  // ---- What is sent ----

  /** Whatever a node sends is in its own name, and every op in a Have is one of its copies, with its payload if
      either store has that. */
  lemma StepSendsCopies(m: Machine, n: State, a: Action, n': State, fx: seq<Effect>, e: Effect)
    requires Step(m, n, a) == R.Some((n', fx)) && e in fx && e.Broadcast?
    ensures SendsCopies(n', n.router.id, e.message)
  {
    hide LR.Has, HeldUnion, Routed, ReceivedHave, LR.Singleton, SendsCopies;
    match a
    case Router(ra) => RoutedSends(m, n, ra, n', fx, e);
    case Authored(key, op) => RoutedSends(m, IngestedExt(n, key, op), Rt.Push(LR.Singleton(key)), n', fx, e);
    case Recv(msg) =>
      match msg.body {
        case Want(w) => RoutedSends(m, n, Rt.RecvWant(msg.sender, w), n', fx, e);
        case Have(ops) => ReceivedSends(m, n, msg.sender, ops, n', fx, e);
      }
    case _ =>
  }

  ghost predicate SendsCopies(n: State, id: NodeId, msg: Message) {
    && msg.sender == id
    && (msg.body.Have? ==> forall k :: k in msg.body.ops ==>
          var sent, relay, ext := R.Some(msg.body.ops[k]), CopyOf(n.relay, k), CopyOf(n.ext, k);
          && (sent == relay || sent == ext)
          && (HasPayloadIn(sent) <==> HasPayloadIn(relay) || HasPayloadIn(ext)))
  }

  lemma RoutedSends(m: Machine, n: State, ra: Rt.Action, n': State, fx: seq<Effect>, e: Effect)
    requires Routed(m, n, ra) == R.Some((n', fx)) && e in fx && e.Broadcast?
    ensures SendsCopies(n', n.router.id, e.message)
  {
    hide Rt.Step, Route, SendsCopies;
    var p := Rt.Step(m.router, n.router, ra).value;
    NI.RouterFrame(m.router, n.router, ra, p.0, p.1);
    RouteSendsCopies(n', p.1, map[], e);
  }

  lemma ReceivedSends(m: Machine, n: State, from: NodeId, ops: OpsMap, n': State, fx: seq<Effect>, e: Effect)
    requires ReceivedHave(m, n, from, ops) == R.Some((n', fx)) && e in fx && e.Broadcast?
    ensures SendsCopies(n', n.router.id, e.message)
  {
    hide Rt.Step, Route, SendsCopies, HeldUnion, IngestAll;
    var a := Rt.RecvHave(from, LR.OfKeys(ops.Keys));
    var p := Rt.Step(m.router, n.router, a).value;
    NI.RouterFrame(m.router, n.router, a, p.0, p.1);
    RouteSendsCopies(n', p.1, ops, e);
  }

  lemma {:induction false} RouteSendsCopies(n: State, fx: seq<Rt.Effect>, parked: OpsMap, e: Effect)
    requires e in Route(n, fx, parked) && e.Broadcast?
    ensures SendsCopies(n, n.router.id, e.message)
  {
    hide RouteOne, SendsCopies;
    if e in RouteOne(n, fx[0], parked) {
      RouteOneSendsCopies(n, fx[0], parked, e);
    } else {
      RouteSendsCopies(n, fx[1..], parked, e);
    }
  }

  lemma RouteOneSendsCopies(n: State, e: Rt.Effect, parked: OpsMap, out: Effect)
    requires out in RouteOne(n, e, parked) && out.Broadcast?
    ensures SendsCopies(n, n.router.id, out.message)
  {
    hide LR.Has;
  }
}

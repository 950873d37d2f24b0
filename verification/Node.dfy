/** One node: the router composed with a capped relay store and the application's own store. */
module Node {
  import R = Ranges
  import opened Logs
  import LR = LogRanges
  import I = Interests
  import Rt = Router
  import opened Storage

  datatype Machine = Machine(router: Rt.Config, cap: nat)

  datatype State = State(router: Rt.State, relay: OpsMap, ext: OpsMap, subs: set<Channel>)

  /** A Have carries ops keyed by `(log, seq)`; its list form is the subject of `Hydrate`. */
  datatype Body = Want(interest: I.Interest) | Have(ops: OpsMap)
  datatype Message = Message(sender: NodeId, body: Body)

  datatype Action =
    | Router(action: Rt.Action)
    | Recv(message: Message)
    | Authored(key: Key, op: Op)
    | Subscribe(channel: Channel)
    | Unsubscribe(channel: Channel)
    | NativeSync(key: Key, op: Op)
    | AppGc(ranges: LogRanges)
    | RelayEvict(ranges: LogRanges)
    | RelayEvictPayloads(ranges: LogRanges)

  datatype Effect = Broadcast(message: Message) | Deliver(key: Key)

  // ---- What is held ----

  /** Everything in either store, without markers. */
  ghost function HeldUnion(relay: OpsMap, ext: OpsMap): (r: LogRanges)
    ensures forall k :: LR.Has(r, k) <==> k in relay || k in ext
    ensures LR.Clean(r)
  {
    LR.UnionClean(HeldAll(relay), HeldAll(ext));
    LR.Union(HeldAll(relay), HeldAll(ext))
  }

  predicate Holds(n: State, k: Key) {
    k in n.relay || k in n.ext
  }

  /** The held snapshot depends only on which keys are held. */
  lemma HeldUnionOfKeys(relay: OpsMap, ext: OpsMap, relay': OpsMap, ext': OpsMap)
    requires forall k :: k in relay || k in ext <==> k in relay' || k in ext'
    ensures HeldUnion(relay, ext) == HeldUnion(relay', ext')
  {
    LR.CleanCanonical(HeldUnion(relay, ext), HeldUnion(relay', ext'));
  }

  ghost function Reconcile(n: State): State {
    n.(router := n.router.(held := HeldUnion(n.relay, n.ext)))
  }

  // ---- Hydration ----

  /** The copy that is sent when both stores hold the key: the one with a payload, the relay's on a
      tie. */
  function BestCopy(relay: OpsMap, ext: OpsMap, k: Key): Op
    requires k in relay || k in ext
  {
    if k in relay && (k !in ext || relay[k].payload.Some? || ext[k].payload.None?) then relay[k] else ext[k]
  }

  function Hydrated(relay: OpsMap, ext: OpsMap, r: LogRanges): (ops: OpsMap)
    ensures forall k :: k in ops <==> (k in relay || k in ext) && LR.Has(r, k)
    ensures forall k :: k in ops ==> ops[k] == BestCopy(relay, ext, k)
  {
    map k | k in relay.Keys + ext.Keys && LR.Has(r, k) :: BestCopy(relay, ext, k)
  }

  // ---- Ingesting what a Have carried ----

  datatype Stores = Stores(relay: OpsMap, ext: OpsMap)

  ghost predicate OverCap(cap: nat, relay: OpsMap, k: Key, op: Op) {
    cap < Usage(relay) + IngestDelta(relay, k, op)
  }

  ghost function IngestOne(cap: nat, subs: set<Channel>, st: Stores, k: Key, op: Op): Stores {
    if k.log.channel in subs then st.(ext := Ingest(st.ext, k, op))
    else if OverCap(cap, st.relay, k, op) then st
    else st.(relay := Ingest(st.relay, k, op))
  }

  /** Every parked op in key order: subscribed ones to `ext`, the others to the relay unless it is
      full. */
  ghost function IngestAll(cap: nat, subs: set<Channel>, st: Stores, keys: seq<Key>, parked: OpsMap): Stores
    requires forall k :: k in keys ==> k in parked
    decreases |keys|
  {
    if keys == [] then st
    else IngestAll(cap, subs, IngestOne(cap, subs, st, keys[0], parked[keys[0]]), keys[1..], parked)
  }

  /** Whether `x` is shed on the way. */
  ghost predicate Sheds(cap: nat, subs: set<Channel>, st: Stores, keys: seq<Key>, parked: OpsMap, x: Key)
    requires forall k :: k in keys ==> k in parked
    decreases |keys|
  {
    keys != [] &&
    ((keys[0] == x && x.log.channel !in subs && OverCap(cap, st.relay, x, parked[x]))
     || Sheds(cap, subs, IngestOne(cap, subs, st, keys[0], parked[keys[0]]), keys[1..], parked, x))
  }

  /** The relay machine's own ingest, which enforces the cap. */
  ghost function RelayIngest(cap: nat, relay: OpsMap, k: Key, op: Op): R.Option<OpsMap> {
    if OverCap(cap, relay, k, op) then R.None else R.Some(Ingest(relay, k, op))
  }

  /** Ingestion with the usage given once and tracked: an op is shed on what has been tracked, and where the relay
      machine then refuses one, the whole receipt fails. */
  ghost function IngestTracked(cap: nat, subs: set<Channel>, st: Stores, usage: nat, keys: seq<Key>, parked: OpsMap)
    : R.Option<Stores>
    requires forall k :: k in keys ==> k in parked
    decreases |keys|
  {
    if keys == [] then R.Some(st)
    else
      var k, op := keys[0], parked[keys[0]];
      var units := IngestDelta(st.relay, k, op);
      if k.log.channel in subs then
        IngestTracked(cap, subs, st.(ext := Ingest(st.ext, k, op)), usage, keys[1..], parked)
      else if cap < usage + units then IngestTracked(cap, subs, st, usage, keys[1..], parked)
      else
        var relay := RelayIngest(cap, st.relay, k, op);
        if relay.None? then R.None
        else IngestTracked(cap, subs, st.(relay := relay.value), usage + units, keys[1..], parked)
  }

  /** Tracking is exact, so the relay machine never refuses. */
  lemma {:induction false} TrackingIsExact(cap: nat, subs: set<Channel>, st: Stores, keys: seq<Key>, parked: OpsMap)
    requires forall k :: k in keys ==> k in parked
    ensures IngestTracked(cap, subs, st, Usage(st.relay), keys, parked) == R.Some(IngestAll(cap, subs, st, keys, parked))
    decreases |keys|
  {
    hide Usage, Ingest, IngestDelta;
    if keys != [] {
      DeltaIsGrowth(st.relay, keys[0], parked[keys[0]]);
      TrackingIsExact(cap, subs, IngestOne(cap, subs, st, keys[0], parked[keys[0]]), keys[1..], parked);
    }
  }

  ghost function IngestBatch(cap: nat, subs: set<Channel>, st: Stores, keys: seq<Key>, parked: OpsMap)
    : (r: R.Option<Stores>)
    requires forall k :: k in keys ==> k in parked
    ensures r == R.Some(IngestAll(cap, subs, st, keys, parked))
  {
    TrackingIsExact(cap, subs, st, keys, parked);
    IngestTracked(cap, subs, st, Usage(st.relay), keys, parked)
  }

  /** `ingest_parked`: usage is read once and tracked. The relay enforces its cap itself; `ok` is
      false if it ever refuses. It never does, because the tracked usage is the real one. */
  method IngestParked(cap: nat, subs: set<Channel>, relay0: OpsMap, ext0: OpsMap, parked: OpsMap)
    returns (ok: bool, relay: OpsMap, ext: OpsMap)
    ensures ok
    ensures Stores(relay, ext) == IngestAll(cap, subs, Stores(relay0, ext0), SortedKeys(parked.Keys), parked)
  {
    hide Usage, Ingest, IngestDelta;
    var order := SortedKeys(parked.Keys);
    ok, relay, ext := true, relay0, ext0;
    var usage := UsageLoop(relay);
    ghost var goal := IngestAll(cap, subs, Stores(relay0, ext0), order, parked);
    assert order[0..] == order;
    var i := 0;
    while i < |order|
      invariant 0 <= i <= |order|
      invariant ok && usage == Usage(relay)
      invariant forall k :: k in order[i..] ==> k in parked
      invariant goal == IngestAll(cap, subs, Stores(relay, ext), order[i..], parked)
    {
      var k := order[i];
      var op := parked[k];
      assert order[i..][0] == k && order[i..][1..] == order[i + 1..];
      i := i + 1;
      if k.log.channel in subs {
        ext := Ingest(ext, k, op);
      } else {
        var units := IngestDelta(relay, k, op);
        if usage + units > cap {
          continue;
        }
        // The machine's own check before it ingests.
        var current := UsageLoop(relay);
        if cap < current + IngestDelta(relay, k, op) {
          ok := false;
          break;
        }
        DeltaIsGrowth(relay, k, op);
        relay := Ingest(relay, k, op);
        usage := usage + units;
      }
    }
  }

  // ---- Routing the router's decisions ----

  function DeliverAll(keys: seq<Key>): (fx: seq<Effect>)
    ensures |fx| == |keys| && forall i :: 0 <= i < |fx| ==> fx[i] == Deliver(keys[i])
  {
    seq(|keys|, i requires 0 <= i < |keys| => Deliver(keys[i]))
  }

  /** The newly accepted keys that arrived here and are subscribed to. */
  function Delivered(subs: set<Channel>, novel: LogRanges, parked: OpsMap): (r: set<Key>)
    ensures forall k :: k in r <==> k in parked && k.log.channel in subs && LR.Has(novel, k)
  {
    set k | k in parked && k.log.channel in subs && LR.Has(novel, k)
  }

  function RouteOne(n: State, e: Rt.Effect, parked: OpsMap): seq<Effect> {
    match e
    case Accept(novel) => DeliverAll(SortedKeys(Delivered(n.subs, novel, parked)))
    case SendWant(interest) => [Broadcast(Message(n.router.id, Want(interest)))]
    case SendHave(r) =>
      var ops := Hydrated(n.relay, n.ext, r);
      if ops == map[] then [] else [Broadcast(Message(n.router.id, Have(ops)))]
  }

  function Route(n: State, fx: seq<Rt.Effect>, parked: OpsMap): seq<Effect> {
    if fx == [] then [] else RouteOne(n, fx[0], parked) + Route(n, fx[1..], parked)
  }

  // ---- The transition ----

  /** Router actions the node may be asked to take directly. */
  predicate Direct(a: Rt.Action) {
    !a.RecvWant? && !a.RecvHave? && !a.Held? && !a.Push? && !a.Open?
  }

  /** Run a router action that touches no store, and route what it decides. */
  ghost function Routed(m: Machine, n: State, a: Rt.Action): R.Option<(State, seq<Effect>)> {
    match Rt.Step(m.router, n.router, a)
    case None => R.None
    case Some(p) =>
      var n1 := n.(router := p.0);
      R.Some((n1, Route(n1, p.1, map[])))
  }

  ghost function ReceivedHave(m: Machine, n: State, from: NodeId, parked: OpsMap): R.Option<(State, seq<Effect>)> {
    match Rt.Step(m.router, n.router, Rt.RecvHave(from, LR.OfKeys(parked.Keys)))
    case None => R.None
    case Some(p) =>
      match IngestBatch(m.cap, n.subs, Stores(n.relay, n.ext), SortedKeys(parked.Keys), parked)
      case None => R.None
      case Some(st) =>
        var n1 := Reconcile(n.(router := p.0, relay := st.relay, ext := st.ext));
        R.Some((n1, Route(n1, p.1, parked)))
  }

  /** The tail of authoring, shared with the shell's debounced flush. */
  ghost function PushRanges(m: Machine, n: State, ranges: LogRanges): R.Option<(State, seq<Effect>)> {
    Routed(m, n, Rt.Push(ranges))
  }

  ghost function IngestedExt(n: State, k: Key, op: Op): State {
    Reconcile(n.(ext := Ingest(n.ext, k, op)))
  }

  predicate Moves(relay: OpsMap, c: Channel, k: Key) {
    k in relay && k.log.channel == c
  }

  function MovedCopy(relay: OpsMap, ext: OpsMap, c: Channel, k: Key): Op
    requires k in ext || Moves(relay, c, k)
  {
    if Moves(relay, c, k) && Accepts(ext, k, relay[k]) then relay[k] else ext[k]
  }

  /** Relay copies of a channel, moved over. */
  function MovedExt(relay: OpsMap, ext: OpsMap, c: Channel): (r: OpsMap)
    ensures forall k :: k in r <==> k in ext || Moves(relay, c, k)
    ensures forall k :: k in r ==> r[k] == MovedCopy(relay, ext, c, k)
  {
    map k | k in ext.Keys + relay.Keys && (k in ext || Moves(relay, c, k)) :: MovedCopy(relay, ext, c, k)
  }

  function WithoutChannel(relay: OpsMap, c: Channel): (r: OpsMap)
    ensures forall k :: k in r <==> k in relay && k.log.channel != c
    ensures forall k :: k in r ==> r[k] == relay[k]
  {
    map k | k in relay && k.log.channel != c :: relay[k]
  }

  /** Every log the relay holds under `c`, as full ranges. */
  ghost function LogsUnder(relay: OpsMap, c: Channel): (r: LogRanges)
    ensures forall log :: LR.Known(r, log) <==> log.channel == c && LR.Known(HeldAll(relay), log)
    ensures forall log :: LR.Known(r, log) ==> LR.Get(r, log) == R.FULL
  {
    ChannelFull(HeldAll(relay), c)
  }

  function ChannelFull(all: LogRanges, c: Channel): (r: LogRanges)
    ensures forall log :: LR.Known(r, log) <==> log.channel == c && LR.Known(all, log)
    ensures forall log :: LR.Known(r, log) ==> LR.Get(r, log) == R.FULL
  {
    if c in all then map[c := FullRanges(all[c])] else map[]
  }

  function FullRanges(m: LR.AuthorMap): (r: LR.AuthorMap)
    ensures r.Keys == m.Keys && (m != map[] ==> r != map[])
    ensures forall a :: a in r ==> r[a] == R.FULL
  {
    var r: LR.AuthorMap := map a | a in m :: R.FULL;
    assert r.Keys == m.Keys;
    r
  }

  /** Evicting those ranges clears exactly the channel. */
  lemma EvictUnderIsWithout(relay: OpsMap, c: Channel)
    ensures Evict(relay, LogsUnder(relay, c)) == WithoutChannel(relay, c)
  {
    var under := LogsUnder(relay, c);
    forall k | k in relay ensures LR.Has(under, k) <==> k.log.channel == c {
      LogsUnderAt(relay, c, k);
    }
    hide LR.Has, LogsUnder;
    assert Evict(relay, under).Keys == WithoutChannel(relay, c).Keys;
  }

  lemma LogsUnderAt(relay: OpsMap, c: Channel, k: Key)
    requires k in relay
    ensures LR.Has(LogsUnder(relay, c), k) <==> k.log.channel == c
  {
    assert LR.Has(HeldAll(relay), k);
    R.EmptyContainsNothing();
    R.FullContains(k.at);
  }

  lemma IngestMoves(relay0: OpsMap, ext0: OpsMap, ext: OpsMap, c: Channel, k: Key)
    requires Moves(relay0, c, k)
    requires k in ext <==> k in ext0
    requires k in ext ==> ext[k] == ext0[k]
    ensures Ingest(ext, k, relay0[k]) == ext[k := MovedCopy(relay0, ext0, c, k)]
  {
  }

  function KeysUnder(relay: OpsMap, c: Channel): (r: set<Key>)
    ensures forall k :: k in r <==> Moves(relay, c, k)
  {
    set k | k in relay && Moves(relay, c, k)
  }

  lemma MigratedIs(relay0: OpsMap, ext0: OpsMap, ext: OpsMap, c: Channel)
    requires forall k :: k in ext <==> k in ext0 || Moves(relay0, c, k)
    requires forall k :: k in ext0 && !Moves(relay0, c, k) ==> ext[k] == ext0[k]
    requires forall k :: Moves(relay0, c, k) ==> ext[k] == MovedCopy(relay0, ext0, c, k)
    ensures ext == MovedExt(relay0, ext0, c)
  {
    assert ext.Keys == MovedExt(relay0, ext0, c).Keys;
  }

  method IngestMoved(relay0: OpsMap, ext0: OpsMap, c: Channel) returns (ext: OpsMap)
    ensures ext == MovedExt(relay0, ext0, c)
  {
    ext := ext0;
    var fetched := KeysUnder(relay0, c);
    var todo := fetched;
    hide Ingest, MovedCopy, MovedExt;
    while todo != {}
      invariant todo <= fetched
      invariant forall k :: k in ext <==> k in ext0 || (k in fetched && k !in todo)
      invariant forall k :: k in ext0 && (k in todo || k !in fetched) ==> ext[k] == ext0[k]
      invariant forall k :: k in fetched && k !in todo ==> ext[k] == MovedCopy(relay0, ext0, c, k)
    {
      var k :| k in todo;
      IngestMoves(relay0, ext0, ext, c, k);
      ext := Ingest(ext, k, relay0[k]);
      todo := todo - {k};
    }
    MigratedIs(relay0, ext0, ext, c);
  }

  /** Subscribe's migration: fetch every relay op under the channel, ingest each, evict the ranges. */
  method Migrate(relay0: OpsMap, ext0: OpsMap, c: Channel, under: LogRanges) returns (relay: OpsMap, ext: OpsMap)
    requires under == LogsUnder(relay0, c)
    ensures relay == WithoutChannel(relay0, c) && ext == MovedExt(relay0, ext0, c)
  {
    ext := IngestMoved(relay0, ext0, c);
    relay := Evict(relay0, under);
    EvictUnderIsWithout(relay0, c);
  }

  ghost function Subscribed(n: State, c: Channel): State {
    Reconcile(n.(subs := n.subs + {c},
                 relay := WithoutChannel(n.relay, c),
                 ext := MovedExt(n.relay, n.ext, c),
                 router := n.router.(openChannels := n.subs + {c})))
  }

  ghost function Unsubscribed(n: State, c: Channel): State {
    Reconcile(n.(subs := n.subs - {c}, router := n.router.(openChannels := n.subs - {c})))
  }

  ghost function Step(m: Machine, n: State, a: Action): R.Option<(State, seq<Effect>)> {
    match a
    case Router(ra) => if Direct(ra) then Routed(m, n, ra) else R.None
    case Recv(msg) =>
      (match msg.body
       case Want(interest) => Routed(m, n, Rt.RecvWant(msg.sender, interest))
       case Have(ops) => ReceivedHave(m, n, msg.sender, ops))
    case Authored(k, op) => PushRanges(m, IngestedExt(n, k, op), LR.Singleton(k))
    case Subscribe(c) => R.Some((Subscribed(n, c), []))
    case Unsubscribe(c) => R.Some((Unsubscribed(n, c), []))
    case NativeSync(k, op) => R.Some((IngestedExt(n, k, op), []))
    case AppGc(r) => R.Some((Reconcile(n.(ext := Evict(n.ext, r))), []))
    case RelayEvict(r) => R.Some((Reconcile(n.(relay := Evict(n.relay, r))), []))
    case RelayEvictPayloads(r) => R.Some((Reconcile(n.(relay := EvictPayloads(n.relay, r))), []))
  }

  /** A fresh node: empty stores, subscribed to `subs`. */
  ghost function New(id: NodeId, subs: set<Channel>): State {
    State(Rt.New(id, HeldUnion(map[], map[]), subs), map[], map[], subs)
  }
}

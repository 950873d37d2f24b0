/** One node's protocol state machine. Time, timer intervals and arriving messages are all actions. */
module Router {
  import R = Ranges
  import opened Logs
  import LR = LogRanges
  import I = Interests

  type Seq = R.Seq
  type LogRanges = LR.LogRanges
  type Interest = I.Interest
  type Option<T> = R.Option<T>

  datatype Config = Config(wantTtl: Time, haveTtl: Time, heardTtl: Time)

  /** A Have witnessed or emitted, forgotten when `ttlLeft` runs out. */
  datatype Record = Record(ranges: LogRanges, ttlLeft: Time)

  /** A Want seen on the wire or emitted by this node. */
  datatype SeenWant = SeenWant(interest: Interest, ttlLeft: Time)

  datatype State = State(
    id: NodeId,
    held: LogRanges,
    seen: seq<SeenWant>,
    heard: map<Channel, Time>,
    haves: map<NodeId, Record>,
    relayed: seq<Record>,
    openChannels: set<Channel>,
    wantTimer: Option<Time>,
    haveTimer: Option<Time>)

  function New(id: NodeId, held: LogRanges, channels: set<Channel>): State {
    State(id, held, [], map[], map[], [], channels, R.None, R.None)
  }

  datatype Action =
    | Tick(dur: Time)
    | ArmWantTimer(interval: Time)
    | ArmHaveTimer(interval: Time)
    | FireWant
    | FireHave
    | Open(channels: set<Channel>)
    | RecvWant(from: NodeId, interest: Interest)
    | RecvHave(from: NodeId, ranges: LogRanges)
    | Held(ranges: LogRanges)
    | Push(ranges: LogRanges)

  datatype Effect =
    | SendWant(interest: Interest)
    | SendHave(ranges: LogRanges)
    | Accept(ranges: LogRanges)

  // ---- Derived values ----

  /** The furthest a single tick may go. */
  function NextDue(s: State): Option<Time> {
    match (s.wantTimer, s.haveTimer)
    case (Some(w), Some(h)) => R.Some(if w <= h then w else h)
    case (Some(w), None) => R.Some(w)
    case (None, h) => h
  }

  predicate WantDue(s: State) {
    s.wantTimer == R.Some(0)
  }

  predicate HaveDue(s: State) {
    s.haveTimer == R.Some(0)
  }

  /** Subscribed, held under, or recently heard wanted by a holder. */
  function ChannelsOfInterest(s: State): set<Channel> {
    s.openChannels + (set c | c in s.held && I.HoldsUnder(s.held, c)) + s.heard.Keys
  }

  /** What this node would ask for if nobody else were asking. */
  function MyInterest(s: State): Interest {
    I.FromHeld(s.held, ChannelsOfInterest(s))
  }

  function SeenInterests(seen: seq<SeenWant>): (r: seq<Interest>)
    ensures |r| == |seen| && forall i :: 0 <= i < |r| ==> r[i] == seen[i].interest
  {
    seq(|seen|, i requires 0 <= i < |seen| => seen[i].interest)
  }

  /** `MyInterest` minus every entry the seen Wants already cover. */
  ghost function NextWant(s: State): Interest {
    I.UncoveredBy(MyInterest(s), SeenInterests(s.seen))
  }

  /** The union over seen Wants of what each asks for out of `held`. */
  function AskOf(seen: seq<SeenWant>, held: LogRanges): (r: LogRanges)
    ensures forall k :: LR.Has(r, k) <==> LR.Has(held, k) && I.AskedBy(SeenInterests(seen), k)
    ensures LR.Clean(r)
    decreases |seen|
  {
    if seen == [] then
      R.EmptyContainsNothing();
      LR.EMPTY
    else
      var front, last := seen[..|seen| - 1], seen[|seen| - 1];
      var r := LR.Union(AskOf(front, held), I.AskWithin(last.interest, held));
      LR.UnionClean(AskOf(front, held), I.AskWithin(last.interest, held));
      assert forall k :: I.AskedBy(SeenInterests(seen), k) <==>
                         I.AskedBy(SeenInterests(front), k) || I.Asks(last.interest, k) by {
        AskedBySnoc(seen);
      }
      r
  }

  lemma AskedBySnoc(seen: seq<SeenWant>)
    requires seen != []
    ensures var front, last := seen[..|seen| - 1], seen[|seen| - 1];
            forall k :: I.AskedBy(SeenInterests(seen), k) <==>
                        I.AskedBy(SeenInterests(front), k) || I.Asks(last.interest, k)
  {
    var front, last := seen[..|seen| - 1], seen[|seen| - 1];
    forall k ensures I.AskedBy(SeenInterests(seen), k) <==>
                     I.AskedBy(SeenInterests(front), k) || I.Asks(last.interest, k)
    {
      if I.AskedBy(SeenInterests(front), k) {
        var i :| 0 <= i < |front| && I.Asks(SeenInterests(front)[i], k);
        assert SeenInterests(seen)[i] == SeenInterests(front)[i];
      }
      if I.Asks(last.interest, k) {
        assert SeenInterests(seen)[|seen| - 1] == last.interest;
      }
    }
  }

  function NetworkAsk(s: State): LogRanges {
    AskOf(s.seen, s.held)
  }

  /** The union of the recent Haves, this node's own last one included. */
  ghost function RecentHaves(haves: map<NodeId, Record>): (r: LogRanges)
    ensures forall k :: LR.Has(r, k) <==> exists n :: n in haves && LR.Has(haves[n].ranges, k)
    ensures forall log :: LR.Known(r, log) <==> exists n :: n in haves && LR.Known(haves[n].ranges, log)
    decreases haves.Keys
  {
    if haves.Keys == {} then
      R.EmptyContainsNothing();
      LR.EMPTY
    else
      var n :| n in haves;
      var rest := haves - {n};
      assert forall m :: m in haves <==> m == n || m in rest;
      LR.Union(haves[n].ranges, RecentHaves(rest))
  }

  /** Everything some asker lacks that was not recently sent. */
  ghost function NextHave(s: State): LogRanges {
    LR.Difference(NetworkAsk(s), RecentHaves(s.haves))
  }

  /** The union of the ranges already flooded onward. */
  function RelayedRanges(relayed: seq<Record>): (r: LogRanges)
    ensures forall k :: LR.Has(r, k) <==> Relayed(relayed, k)
    decreases |relayed|
  {
    if relayed == [] then
      R.EmptyContainsNothing();
      LR.EMPTY
    else
      var front, last := relayed[..|relayed| - 1], relayed[|relayed| - 1];
      assert forall k :: Relayed(relayed, k) <==> Relayed(front, k) || LR.Has(last.ranges, k) by {
        forall k ensures Relayed(relayed, k) <==> Relayed(front, k) || LR.Has(last.ranges, k) {
          RelayedSnoc(front, last, k);
          assert relayed == front + [last];
        }
      }
      LR.Union(RelayedRanges(front), last.ranges)
  }

  ghost predicate Relayed(relayed: seq<Record>, k: Key) {
    exists i :: 0 <= i < |relayed| && LR.Has(relayed[i].ranges, k)
  }

  lemma RelayedSnoc(relayed: seq<Record>, r: Record, k: Key)
    ensures Relayed(relayed + [r], k) <==> Relayed(relayed, k) || LR.Has(r.ranges, k)
  {
    if Relayed(relayed, k) {
      var i :| 0 <= i < |relayed| && LR.Has(relayed[i].ranges, k);
      assert (relayed + [r])[i] == relayed[i];
    }
    if LR.Has(r.ranges, k) {
      assert (relayed + [r])[|relayed|] == r;
    }
  }

  // ---- The passing of time ----

  function LessTime(t: Option<Time>, d: Time): Option<Time>
    requires t.Some? ==> d <= t.value
  {
    if t.Some? then R.Some(t.value - d) else R.None
  }

  function AgeRecords(rs: seq<Record>, d: Time): seq<Record> {
    if rs == [] then []
    else
      (if d < rs[0].ttlLeft then [rs[0].(ttlLeft := rs[0].ttlLeft - d)] else []) + AgeRecords(rs[1..], d)
  }

  function AgeSeen(ws: seq<SeenWant>, d: Time): seq<SeenWant> {
    if ws == [] then []
    else
      (if d < ws[0].ttlLeft then [ws[0].(ttlLeft := ws[0].ttlLeft - d)] else []) + AgeSeen(ws[1..], d)
  }

  function AgeHeard(m: map<Channel, Time>, d: Time): map<Channel, Time> {
    map c | c in m && d < m[c] :: m[c] - d
  }

  function AgeHaves(m: map<NodeId, Record>, d: Time): map<NodeId, Record> {
    map n | n in m && d < m[n].ttlLeft :: m[n].(ttlLeft := m[n].ttlLeft - d)
  }

  predicate MayTick(s: State, d: Time) {
    0 < d && (NextDue(s).Some? ==> d <= NextDue(s).value)
  }

  function Ticked(s: State, d: Time): State
    requires MayTick(s, d)
  {
    s.(wantTimer := LessTime(s.wantTimer, d),
       haveTimer := LessTime(s.haveTimer, d),
       haves := AgeHaves(s.haves, d),
       relayed := AgeRecords(s.relayed, d),
       seen := AgeSeen(s.seen, d),
       heard := AgeHeard(s.heard, d))
  }

  // ---- The transition ----

  /** The relay part shared by Push and RecvHave: what is not yet in the seen-set. */
  ghost function RelayOf(s: State, ranges: LogRanges): LogRanges {
    LR.Difference(ranges, RelayedRanges(s.relayed))
  }

  ghost function FiredWant(cfg: Config, s: State): (State, seq<Effect>) {
    var out := NextWant(s);
    var s1 := s.(wantTimer := R.None);
    if out == map[] then (s1, [])
    else (s1.(seen := s.seen + [SeenWant(out, cfg.wantTtl)]), [SendWant(out)])
  }

  ghost function FiredHave(cfg: Config, s: State): (State, seq<Effect>) {
    var ranges := NextHave(s);
    var s1 := s.(haveTimer := R.None);
    if LR.IsEmpty(ranges) then (s1, [])
    else
      (s1.(haves := s.haves[s.id := Record(ranges, cfg.haveTtl)],
           relayed := s.relayed + [Record(ranges, cfg.haveTtl)]),
       [SendHave(ranges)])
  }

  ghost function Pushed(cfg: Config, s: State, ranges: LogRanges): (State, seq<Effect>) {
    var s1 := s.(held := LR.Union(s.held, ranges));
    var relay := RelayOf(s, ranges);
    if LR.IsEmpty(relay) then (s1, [])
    else
      (s1.(haves := s.haves[s.id := Record(relay, cfg.haveTtl)],
           relayed := s.relayed + [Record(relay, cfg.haveTtl)]),
       [SendHave(relay)])
  }

  /** A channel wanted by someone who holds data under it becomes of interest here, unless something
      is held under it already. */
  function Adopted(cfg: Config, s: State, interest: Interest): set<Channel> {
    set c | c in interest && !I.IsPure(interest[c]) && !I.HoldsUnder(s.held, c)
  }

  ghost function ReceivedWant(cfg: Config, s: State, interest: Interest): (State, seq<Effect>) {
    var fx := if I.AnyUncoveredBy(interest, SeenInterests(s.seen)) then [SendWant(interest)] else [];
    (s.(heard := s.heard + (map c | c in Adopted(cfg, s, interest) :: cfg.heardTtl),
        seen := s.seen + [SeenWant(interest, cfg.wantTtl)]),
     fx)
  }

  ghost function ReceivedHave(cfg: Config, s: State, from: NodeId, ranges: LogRanges): (State, seq<Effect>) {
    var novel := LR.Difference(ranges, s.held);
    var (held, accept) := if LR.IsEmpty(novel) then (s.held, []) else (LR.Union(s.held, novel), [Accept(novel)]);
    var relay := RelayOf(s, ranges);
    var (relayed, send) :=
      if LR.IsEmpty(relay) then (s.relayed, [])
      else (s.relayed + [Record(relay, cfg.haveTtl)], [SendHave(relay)]);
    (s.(held := held, relayed := relayed, haves := s.haves[from := Record(ranges, cfg.haveTtl)]),
     accept + send)
  }

  /** One transition; `None` where the source refuses the action. */
  ghost function Step(cfg: Config, s: State, a: Action): Option<(State, seq<Effect>)> {
    match a
    case Tick(d) => if MayTick(s, d) then R.Some((Ticked(s, d), [])) else R.None
    case ArmWantTimer(t) => if s.wantTimer.Some? then R.None else R.Some((s.(wantTimer := R.Some(t)), []))
    case ArmHaveTimer(t) =>
      if s.haveTimer.Some? || LR.IsEmpty(NetworkAsk(s)) then R.None
      else R.Some((s.(haveTimer := R.Some(t)), []))
    case FireWant => if WantDue(s) then R.Some(FiredWant(cfg, s)) else R.None
    case FireHave => if HaveDue(s) then R.Some(FiredHave(cfg, s)) else R.None
    case Open(channels) => R.Some((s.(openChannels := channels), []))
    case RecvWant(from, interest) => if from == s.id then R.None else R.Some(ReceivedWant(cfg, s, interest))
    case RecvHave(from, ranges) => if from == s.id then R.None else R.Some(ReceivedHave(cfg, s, from, ranges))
    case Held(ranges) => R.Some((s.(held := ranges), []))
    case Push(ranges) => if LR.IsEmpty(ranges) then R.None else R.Some(Pushed(cfg, s, ranges))
  }

  // ---- Ticks compose ----

  lemma {:induction false} AgeRecordsTwice(rs: seq<Record>, d: Time, e: Time)
    ensures AgeRecords(AgeRecords(rs, d), e) == AgeRecords(rs, d + e)
  {
    if rs != [] {
      AgeRecordsTwice(rs[1..], d, e);
      var rest := AgeRecords(rs[1..], d);
      if d < rs[0].ttlLeft {
        var aged := [rs[0].(ttlLeft := rs[0].ttlLeft - d)] + rest;
        assert aged[1..] == rest && AgeRecords(rs, d) == aged;
        assert AgeRecords(aged, e)
            == (if d + e < rs[0].ttlLeft then [rs[0].(ttlLeft := rs[0].ttlLeft - d - e)] else []) + AgeRecords(rest, e);
      } else {
        assert [] + rest == rest;
      }
    }
  }

  lemma {:induction false} AgeSeenTwice(ws: seq<SeenWant>, d: Time, e: Time)
    ensures AgeSeen(AgeSeen(ws, d), e) == AgeSeen(ws, d + e)
  {
    if ws != [] {
      AgeSeenTwice(ws[1..], d, e);
      var rest := AgeSeen(ws[1..], d);
      if d < ws[0].ttlLeft {
        var aged := [ws[0].(ttlLeft := ws[0].ttlLeft - d)] + rest;
        assert aged[1..] == rest && AgeSeen(ws, d) == aged;
        assert AgeSeen(aged, e)
            == (if d + e < ws[0].ttlLeft then [ws[0].(ttlLeft := ws[0].ttlLeft - d - e)] else []) + AgeSeen(rest, e);
      } else {
        assert [] + rest == rest;
      }
    }
  }

  lemma AgeHavesTwice(m: map<NodeId, Record>, d: Time, e: Time)
    ensures AgeHaves(AgeHaves(m, d), e) == AgeHaves(m, d + e)
  {
    var once, twice, sum := AgeHaves(m, d), AgeHaves(AgeHaves(m, d), e), AgeHaves(m, d + e);
    forall n ensures n in twice <==> n in sum {
      assert n in twice <==> n in once && e < once[n].ttlLeft;
    }
  }

  lemma AgeHeardTwice(h: map<Channel, Time>, d: Time, e: Time)
    ensures AgeHeard(AgeHeard(h, d), e) == AgeHeard(h, d + e)
  {
    var once, twice, sum := AgeHeard(h, d), AgeHeard(AgeHeard(h, d), e), AgeHeard(h, d + e);
    forall c ensures c in twice <==> c in sum {
      assert c in twice <==> c in once && e < once[c];
    }
  }

  /** Two ticks are one tick of the sum, enabled together. */
  lemma TicksCompose(s: State, d: Time, e: Time)
    requires 0 < d && 0 < e
    ensures MayTick(s, d + e) <==> MayTick(s, d) && MayTick(Ticked(s, d), e)
    ensures MayTick(s, d + e) ==> Ticked(Ticked(s, d), e) == Ticked(s, d + e)
  {
    hide AgeRecords, AgeSeen, AgeHaves, AgeHeard;
    AgeRecordsTwice(s.relayed, d, e);
    AgeSeenTwice(s.seen, d, e);
    AgeHavesTwice(s.haves, d, e);
    AgeHeardTwice(s.heard, d, e);
  }

  // ---- Emission cancels, and loses no ask ----

  /** Firing a Want notes what it sends, and nothing else changes that the node's interest depends on. */
  lemma FiredWantNotes(cfg: Config, s: State)
    ensures var s1 := FiredWant(cfg, s).0;
            && SeenInterests(s1.seen) == SeenInterests(s.seen) + (if NextWant(s) == map[] then [] else [NextWant(s)])
            && MyInterest(s1) == MyInterest(s)
  {
    hide NextWant, I.FromHeld;
  }

  lemma UncoveredIs(s: State, c: Channel)
    ensures c in NextWant(s) <==> c in MyInterest(s) && !I.CoveredBy(MyInterest(s)[c], c, SeenInterests(s.seen))
    ensures c in NextWant(s) ==> NextWant(s)[c] == MyInterest(s)[c]
  {
    hide MyInterest, I.CoveredBy;
  }

  /** A channel the node cares about: subscribed to, recently heard wanted by a holder, or held under. */
  ghost predicate OfInterest(s: State, c: Channel) {
    c in s.openChannels || c in s.heard || exists k: Key :: k.log.channel == c && LR.Has(s.held, k)
  }

  /** Those are exactly the channels of the node's interest, and under each it asks for all it does not hold. */
  lemma InterestSources(s: State)
    ensures forall c :: c in MyInterest(s) <==> OfInterest(s, c)
    ensures forall k: Key :: I.Asks(MyInterest(s), k) <==> OfInterest(s, k.log.channel) && !LR.Has(s.held, k)
  {
    hide LR.Has, I.HoldsUnder;
    forall c ensures c in ChannelsOfInterest(s) <==> OfInterest(s, c) {
      I.HoldsUnderHas(s.held, c);
      HeldChannelIsThere(s.held, c);
    }
  }

  lemma HeldChannelIsThere(held: LogRanges, c: Channel)
    ensures I.HoldsUnder(held, c) ==> c in held
  {
  }

  /** After a Want fires, the seen Wants cover every entry of the node's interest. */
  lemma FireWantCoversInterest(cfg: Config, s: State, c: Channel)
    requires OfInterest(s, c)
    ensures c in MyInterest(s)
    ensures I.CoveredBy(MyInterest(s)[c], c, SeenInterests(FiredWant(cfg, s).0.seen))
  {
    InterestSources(s);
    FiredWantNotes(cfg, s);
    UncoveredIs(s, c);
    hide FiredWant, NextWant, MyInterest, I.CoveredBy, SeenInterests, OfInterest;
    var before, after := SeenInterests(s.seen), SeenInterests(FiredWant(cfg, s).0.seen);
    if I.CoveredBy(MyInterest(s)[c], c, before) {
      forall i | i in before ensures i in after {
        var n :| 0 <= n < |before| && before[n] == i;
        assert after[n] == before[n];
      }
      I.CoverageIsMonotone(MyInterest(s)[c], c, before, after);
    } else {
      assert after[|after| - 1] == NextWant(s);
      I.SeenIsCovered(NextWant(s), after);
    }
  }

  /** After a Want fires, everything the node does not hold under a channel it cares about is asked for by some seen
      Want; and a second Want right after emits nothing. */
  lemma FireWantLosesNoAsk(cfg: Config, s: State)
    ensures forall k: Key :: OfInterest(s, k.log.channel) && !LR.Has(s.held, k) ==>
              I.AskedBy(SeenInterests(FiredWant(cfg, s).0.seen), k)
    ensures NextWant(FiredWant(cfg, s).0) == map[]
    ensures forall t :: FiredWant(cfg, FiredWant(cfg, s).0.(wantTimer := R.Some(t))).1 == []
  {
    hide FiredWant, NextWant, MyInterest, I.CoveredBy, SeenInterests, OfInterest, LR.Has;
    var s1 := FiredWant(cfg, s).0;
    FiredWantNotes(cfg, s);
    InterestSources(s);
    forall k | I.Asks(MyInterest(s), k) ensures I.AskedBy(SeenInterests(s1.seen), k) {
      FireWantCoversInterest(cfg, s, k.log.channel);
      I.CoveredByMeans(MyInterest(s)[k.log.channel], k.log.channel, SeenInterests(s1.seen));
    }
    forall c ensures c !in NextWant(s1) {
      UncoveredIs(s1, c);
      if c in MyInterest(s) {
        FireWantCoversInterest(cfg, s, c);
      }
    }
    assert NextWant(s1) == map[];
    forall t ensures FiredWant(cfg, s1.(wantTimer := R.Some(t))).1 == [] {
      SilentWant(cfg, s1, R.Some(t));
    }
  }

  lemma SilentWant(cfg: Config, s: State, t: Option<Time>)
    ensures FiredWant(cfg, s.(wantTimer := t)).1 == [] <==> NextWant(s) == map[]
  {
    assert NextWant(s.(wantTimer := t)) == NextWant(s);
  }

  /** While the record of a Want lives, an echo of it is not relayed. */
  lemma EchoIsNotRelayed(cfg: Config, s: State, from: NodeId, w: SeenWant)
    requires w in s.seen
    ensures ReceivedWant(cfg, s, w.interest).1 == []
  {
    var i :| 0 <= i < |s.seen| && s.seen[i] == w;
    assert SeenInterests(s.seen)[i] == w.interest;
    I.SeenIsCovered(w.interest, SeenInterests(s.seen));
  }

  /** A node's own Want asks for nothing it held when it emitted it, so its echo arms nothing then. */
  lemma OwnWantAsksForNothingHeld(s: State)
    ensures LR.IsEmpty(I.AskWithin(NextWant(s), s.held))
  {
    var ask := I.AskWithin(NextWant(s), s.held);
    forall k ensures !LR.Has(ask, k) {
      if I.Asks(NextWant(s), k) {
        assert I.Asks(MyInterest(s), k);
      }
    }
    LR.EmptyHasNothing(ask);
  }

  // ---- Runs of one router ----

  /** A run: the states passed through, the action taken in each but the last, what each emitted. */
  datatype Run = Run(states: seq<State>, actions: seq<Action>, fx: seq<seq<Effect>>)

  ghost predicate StepAt(cfg: Config, run: Run, i: nat) {
    i < |run.actions| && i < |run.fx| && i + 1 < |run.states|
    && Step(cfg, run.states[i], run.actions[i]) == R.Some((run.states[i + 1], run.fx[i]))
  }

  ghost predicate IsRun(cfg: Config, run: Run) {
    && |run.states| == |run.actions| + 1 && |run.fx| == |run.actions|
    && forall i: nat :: i < |run.actions| ==> StepAt(cfg, run, i)
  }

  predicate SendsKey(fx: seq<Effect>, k: Key) {
    exists e :: e in fx && e.SendHave? && LR.Has(e.ranges, k)
  }

  /** Time passed over steps `i .. j`. */
  function Elapsed(actions: seq<Action>, i: nat, j: nat): Time
    requires i <= j <= |actions|
    decreases j - i
  {
    if i == j then 0
    else Elapsed(actions, i, j - 1) + if actions[j - 1].Tick? then actions[j - 1].dur else 0
  }

  /** Some live relay record of `k` has exactly `left` to go. */
  ghost predicate RelayedFor(s: State, k: Key, left: Time) {
    exists r :: r in s.relayed && LR.Has(r.ranges, k) && r.ttlLeft == left
  }

  lemma {:induction false} AgeRecordsKeeps(rs: seq<Record>, d: Time, r: Record)
    requires r in rs && d < r.ttlLeft
    ensures r.(ttlLeft := r.ttlLeft - d) in AgeRecords(rs, d)
  {
    if rs[0] != r {
      AgeRecordsKeeps(rs[1..], d, r);
    }
  }

  lemma {:induction false} AgeRecordsFrom(rs: seq<Record>, d: Time, r: Record)
    requires r in AgeRecords(rs, d)
    ensures 0 < r.ttlLeft && r.(ttlLeft := r.ttlLeft + d) in rs
  {
    if !(d < rs[0].ttlLeft && r == rs[0].(ttlLeft := rs[0].ttlLeft - d)) {
      AgeRecordsFrom(rs[1..], d, r);
    }
  }

  /** The Haves among some effects, as fresh relay records. */
  function Noted(cfg: Config, fx: seq<Effect>): seq<Record> {
    if fx == [] then []
    else (if fx[0].SendHave? then [Record(fx[0].ranges, cfg.haveTtl)] else []) + Noted(cfg, fx[1..])
  }

  lemma NotedShort(cfg: Config, a: Effect, b: Effect)
    requires !a.SendHave?
    ensures Noted(cfg, [a]) == [] && Noted(cfg, [a] + [b]) == Noted(cfg, [b])
    ensures b.SendHave? ==> Noted(cfg, [b]) == [Record(b.ranges, cfg.haveTtl)]
  {
    assert ([a] + [b])[1..] == [b];
  }

  /** The relay seen-set only ages, or grows by exactly the Haves sent. */
  lemma RelayedStep(cfg: Config, s: State, a: Action, s': State, fx: seq<Effect>)
    requires Step(cfg, s, a) == R.Some((s', fx))
    ensures s'.relayed == if a.Tick? then AgeRecords(s.relayed, a.dur) else s.relayed + Noted(cfg, fx)
  {
    hide LR.IsEmpty, LR.Difference, LR.Union, RelayedRanges, RelayOf, RecentHaves, NetworkAsk, NextHave,
         NextWant, I.AnyUncoveredBy, Adopted, MayTick, WantDue, HaveDue;
    match a
    case FireWant =>
      NotedShort(cfg, SendWant(NextWant(s)), Accept(LR.EMPTY));
    case RecvWant(from, interest) =>
      NotedShort(cfg, SendWant(interest), Accept(LR.EMPTY));
    case RecvHave(from, ranges) =>
      NotedShort(cfg, Accept(LR.Difference(ranges, s.held)), SendHave(RelayOf(s, ranges)));
      assert [] + [SendHave(RelayOf(s, ranges))] == [SendHave(RelayOf(s, ranges))];
    case FireHave =>
      NotedShort(cfg, Accept(LR.EMPTY), SendHave(NextHave(s)));
    case Push(ranges) =>
      NotedShort(cfg, Accept(LR.EMPTY), SendHave(RelayOf(s, ranges)));
    case _ =>
  }

  lemma {:induction false} SentIsNoted(cfg: Config, fx: seq<Effect>, e: Effect)
    requires e in fx && e.SendHave?
    ensures Record(e.ranges, cfg.haveTtl) in Noted(cfg, fx)
  {
    if fx[0] != e {
      SentIsNoted(cfg, fx[1..], e);
    }
  }

  /** A relay record outlives every step, ageing only with the clock. */
  lemma RelayRecordSurvives(cfg: Config, s: State, a: Action, s': State, fx: seq<Effect>, k: Key, left: Time)
    requires Step(cfg, s, a) == R.Some((s', fx)) && RelayedFor(s, k, left)
    requires a.Tick? ==> a.dur < left
    ensures RelayedFor(s', k, if a.Tick? then left - a.dur else left)
  {
    hide Step;
    RelayedStep(cfg, s, a, s', fx);
    var r :| r in s.relayed && LR.Has(r.ranges, k) && r.ttlLeft == left;
    if a.Tick? {
      AgeRecordsKeeps(s.relayed, a.dur, r);
    } else {
      assert r in s'.relayed;
    }
  }

  /** Whatever is sent as a Have is noted as relayed for a full TTL. */
  lemma SendingIsNoted(cfg: Config, s: State, a: Action, s': State, fx: seq<Effect>, k: Key)
    requires Step(cfg, s, a) == R.Some((s', fx)) && SendsKey(fx, k)
    ensures RelayedFor(s', k, cfg.haveTtl)
  {
    var e :| e in fx && e.SendHave? && LR.Has(e.ranges, k);
    SentIsNoted(cfg, fx, e);
    RelayedStep(cfg, s, a, s', fx);
    hide Step;
    assert !a.Tick? ==> Record(e.ranges, cfg.haveTtl) in s'.relayed;
  }

  lemma {:induction false} RelayRecordOverRun(cfg: Config, run: Run, i: nat, j: nat, k: Key)
    requires IsRun(cfg, run) && i < j <= |run.actions|
    requires SendsKey(run.fx[i], k)
    requires Elapsed(run.actions, i + 1, j) < cfg.haveTtl
    ensures RelayedFor(run.states[j], k, cfg.haveTtl - Elapsed(run.actions, i + 1, j))
    decreases j - i
  {
    hide Step;
    assert StepAt(cfg, run, j - 1);
    if j == i + 1 {
      SendingIsNoted(cfg, run.states[i], run.actions[i], run.states[j], run.fx[i], k);
    } else {
      RelayRecordOverRun(cfg, run, i, j - 1, k);
      RelayRecordSurvives(cfg, run.states[j - 1], run.actions[j - 1], run.states[j], run.fx[j - 1], k,
                          cfg.haveTtl - Elapsed(run.actions, i + 1, j - 1));
    }
  }

  /** A receipt or a push sends only what the seen-set does not hold. */
  lemma OnlyUnrelayedIsSent(cfg: Config, s: State, a: Action, s': State, fx: seq<Effect>, e: Effect)
    requires Step(cfg, s, a) == R.Some((s', fx)) && (a.RecvHave? || a.Push?)
    requires e in fx && e.SendHave?
    ensures e.ranges == RelayOf(s, a.ranges)
  {
    hide LR.IsEmpty, LR.Difference, LR.Union, RelayedRanges, RelayOf;
  }

  lemma RelayedIsNotSent(cfg: Config, s: State, a: Action, s': State, fx: seq<Effect>, k: Key, left: Time)
    requires Step(cfg, s, a) == R.Some((s', fx)) && (a.RecvHave? || a.Push?)
    requires RelayedFor(s, k, left)
    ensures !SendsKey(fx, k)
  {
    hide Step;
    var r :| r in s.relayed && LR.Has(r.ranges, k) && r.ttlLeft == left;
    var i :| 0 <= i < |s.relayed| && s.relayed[i] == r;
    assert Relayed(s.relayed, k);
    assert !LR.Has(RelayOf(s, a.ranges), k);
    if SendsKey(fx, k) {
      var e :| e in fx && e.SendHave? && LR.Has(e.ranges, k);
      OnlyUnrelayedIsSent(cfg, s, a, s', fx, e);
    }
  }

  /** At most one relay per TTL: once a run has sent `k`, a later receipt or push sends it again only
      when at least the Have TTL has passed in between. */
  lemma OneRelayPerTtl(cfg: Config, run: Run, i: nat, j: nat, k: Key)
    requires IsRun(cfg, run) && i < j < |run.actions|
    requires SendsKey(run.fx[i], k)
    requires run.actions[j].RecvHave? || run.actions[j].Push?
    requires SendsKey(run.fx[j], k)
    ensures cfg.haveTtl <= Elapsed(run.actions, i + 1, j)
  {
    hide Step;
    if Elapsed(run.actions, i + 1, j) < cfg.haveTtl {
      RelayRecordOverRun(cfg, run, i, j, k);
      assert StepAt(cfg, run, j);
      RelayedIsNotSent(cfg, run.states[j], run.actions[j], run.states[j + 1], run.fx[j], k,
                       cfg.haveTtl - Elapsed(run.actions, i + 1, j));
    }
  }

  /** Every record of a state has time left, and no more than it was given. */
  ghost predicate RecordsLive(cfg: Config, s: State) {
    && (forall r :: r in s.relayed ==> 0 < r.ttlLeft <= cfg.haveTtl)
    && (forall n :: n in s.haves ==> 0 < s.haves[n].ttlLeft <= cfg.haveTtl)
    && (forall w :: w in s.seen ==> 0 < w.ttlLeft <= cfg.wantTtl)
    && (forall c :: c in s.heard ==> 0 < s.heard[c] <= cfg.heardTtl)
  }

  lemma {:induction false} AgeSeenFrom(ws: seq<SeenWant>, d: Time, w: SeenWant)
    requires w in AgeSeen(ws, d)
    ensures 0 < w.ttlLeft && w.(ttlLeft := w.ttlLeft + d) in ws
  {
    if !(d < ws[0].ttlLeft && w == ws[0].(ttlLeft := ws[0].ttlLeft - d)) {
      AgeSeenFrom(ws[1..], d, w);
    }
  }

  lemma TickKeepsLive(cfg: Config, s: State, d: Time)
    requires RecordsLive(cfg, s) && MayTick(s, d)
    ensures RecordsLive(cfg, Ticked(s, d))
  {
    hide AgeRecords, AgeSeen;
    var s' := Ticked(s, d);
    forall r | r in s'.relayed ensures 0 < r.ttlLeft <= cfg.haveTtl {
      AgeRecordsFrom(s.relayed, d, r);
    }
    forall w | w in s'.seen ensures 0 < w.ttlLeft <= cfg.wantTtl {
      AgeSeenFrom(s.seen, d, w);
    }
  }

  lemma {:induction false} NotedTtl(cfg: Config, fx: seq<Effect>)
    ensures forall r :: r in Noted(cfg, fx) ==> r.ttlLeft == cfg.haveTtl
  {
    if fx != [] {
      NotedTtl(cfg, fx[1..]);
    }
  }

  lemma RecordsStayLive(cfg: Config, s: State, a: Action, s': State, fx: seq<Effect>)
    requires 0 < cfg.wantTtl && 0 < cfg.haveTtl && 0 < cfg.heardTtl
    requires RecordsLive(cfg, s) && Step(cfg, s, a) == R.Some((s', fx))
    ensures RecordsLive(cfg, s')
  {
    if a.Tick? {
      TickKeepsLive(cfg, s, a.dur);
    } else {
      RelayedStep(cfg, s, a, s', fx);
      NotedTtl(cfg, fx);
      OtherRecordsStayLive(cfg, s, a, s', fx);
    }
  }

  lemma OtherRecordsStayLive(cfg: Config, s: State, a: Action, s': State, fx: seq<Effect>)
    requires 0 < cfg.wantTtl && 0 < cfg.haveTtl && 0 < cfg.heardTtl
    requires RecordsLive(cfg, s) && Step(cfg, s, a) == R.Some((s', fx)) && !a.Tick?
    ensures forall n :: n in s'.haves ==> 0 < s'.haves[n].ttlLeft <= cfg.haveTtl
    ensures forall w :: w in s'.seen ==> 0 < w.ttlLeft <= cfg.wantTtl
    ensures forall c :: c in s'.heard ==> 0 < s'.heard[c] <= cfg.heardTtl
  {
    SeenStep(cfg, s, a, s', fx);
    MapsStep(cfg, s, a, s', fx);
    hide Step;
  }

  /** The last Haves and the channels heard of are left alone, or gain entries with a full lifetime. */
  lemma MapsStep(cfg: Config, s: State, a: Action, s': State, fx: seq<Effect>)
    requires Step(cfg, s, a) == R.Some((s', fx)) && !a.Tick?
    ensures forall n :: n in s'.haves ==> (n in s.haves && s'.haves[n] == s.haves[n]) || s'.haves[n].ttlLeft == cfg.haveTtl
    ensures forall c :: c in s'.heard ==> (c in s.heard && s'.heard[c] == s.heard[c]) || s'.heard[c] == cfg.heardTtl
  {
    hide LR.IsEmpty, LR.Difference, LR.Union, RelayedRanges, RelayOf, RecentHaves, NetworkAsk, NextHave,
         NextWant, I.AnyUncoveredBy, Adopted, MayTick, WantDue, HaveDue;
  }

  /** In every state a run reaches from a fresh router, every record is live. */
  lemma {:induction false} RecordsLiveOverRun(cfg: Config, run: Run, i: nat)
    requires 0 < cfg.wantTtl && 0 < cfg.haveTtl && 0 < cfg.heardTtl
    requires IsRun(cfg, run) && RecordsLive(cfg, run.states[0]) && i <= |run.actions|
    ensures RecordsLive(cfg, run.states[i])
  {
    hide Step;
    if i > 0 {
      RecordsLiveOverRun(cfg, run, i - 1);
      assert StepAt(cfg, run, i - 1);
      RecordsStayLive(cfg, run.states[i - 1], run.actions[i - 1], run.states[i], run.fx[i - 1]);
    }
  }

  /** A tick forgets a record, of any kind, exactly when its own time is up, and otherwise takes the tick off what
      it has left. */
  lemma TickExpiresExactly(s: State, d: Time, r: Record, w: SeenWant)
    requires MayTick(s, d) && 0 < r.ttlLeft && 0 < w.ttlLeft
    ensures r in Ticked(s, d).relayed <==> r.(ttlLeft := r.ttlLeft + d) in s.relayed
    ensures w in Ticked(s, d).seen <==> w.(ttlLeft := w.ttlLeft + d) in s.seen
    ensures forall n :: n in Ticked(s, d).haves && Ticked(s, d).haves[n] == r
                        <==> n in s.haves && s.haves[n] == r.(ttlLeft := r.ttlLeft + d)
    ensures forall c :: c in Ticked(s, d).heard <==> c in s.heard && d < s.heard[c]
    ensures forall c :: c in Ticked(s, d).heard ==> Ticked(s, d).heard[c] == s.heard[c] - d
  {
    hide MayTick, AgeRecords, AgeSeen, AgeHaves, AgeHeard;
    RelayedExpires(s.relayed, d, r);
    SeenExpires(s.seen, d, w);
    HavesExpire(s.haves, d, r);
    HeardExpires(s.heard, d);
  }

  lemma RelayedExpires(rs: seq<Record>, d: Time, r: Record)
    requires 0 < r.ttlLeft
    ensures r in AgeRecords(rs, d) <==> r.(ttlLeft := r.ttlLeft + d) in rs
  {
    if r in AgeRecords(rs, d) {
      AgeRecordsFrom(rs, d, r);
    }
    if r.(ttlLeft := r.ttlLeft + d) in rs {
      AgeRecordsKeeps(rs, d, r.(ttlLeft := r.ttlLeft + d));
    }
  }

  lemma SeenExpires(ws: seq<SeenWant>, d: Time, w: SeenWant)
    requires 0 < w.ttlLeft
    ensures w in AgeSeen(ws, d) <==> w.(ttlLeft := w.ttlLeft + d) in ws
  {
    if w in AgeSeen(ws, d) {
      AgeSeenFrom(ws, d, w);
    }
    if w.(ttlLeft := w.ttlLeft + d) in ws {
      AgeSeenKeeps(ws, d, w.(ttlLeft := w.ttlLeft + d));
    }
  }

  lemma HavesExpire(m: map<NodeId, Record>, d: Time, r: Record)
    requires 0 < r.ttlLeft
    ensures forall n :: n in AgeHaves(m, d) && AgeHaves(m, d)[n] == r
                        <==> n in m && m[n] == r.(ttlLeft := r.ttlLeft + d)
  {
  }

  lemma HeardExpires(m: map<Channel, Time>, d: Time)
    ensures forall c :: c in AgeHeard(m, d) <==> c in m && d < m[c]
    ensures forall c :: c in AgeHeard(m, d) ==> AgeHeard(m, d)[c] == m[c] - d
  {
  }

  lemma {:induction false} AgeSeenKeeps(ws: seq<SeenWant>, d: Time, w: SeenWant)
    requires w in ws && d < w.ttlLeft
    ensures w.(ttlLeft := w.ttlLeft - d) in AgeSeen(ws, d)
  {
    if ws[0] != w {
      AgeSeenKeeps(ws[1..], d, w);
    }
  }

  // ---- Wants over a run ----

  predicate SendsWant(fx: seq<Effect>, w: Interest) {
    exists e :: e in fx && e.SendWant? && e.interest == w
  }

  /** Some live record of the Want has exactly `left` to go. */
  ghost predicate SeenFor(s: State, w: Interest, left: Time) {
    SeenWant(w, left) in s.seen
  }

  /** The Wants taken note of in a step. */
  function NotedWants(cfg: Config, a: Action, fx: seq<Effect>): seq<SeenWant> {
    if a.RecvWant? then [SeenWant(a.interest, cfg.wantTtl)]
    else if fx != [] && fx[0].SendWant? then [SeenWant(fx[0].interest, cfg.wantTtl)]
    else []
  }

  /** The seen Wants only age, or grow by the Want sent or received. */
  lemma SeenStep(cfg: Config, s: State, a: Action, s': State, fx: seq<Effect>)
    requires Step(cfg, s, a) == R.Some((s', fx))
    ensures s'.seen == if a.Tick? then AgeSeen(s.seen, a.dur) else s.seen + NotedWants(cfg, a, fx)
    ensures forall w :: SendsWant(fx, w) ==> NotedWants(cfg, a, fx) == [SeenWant(w, cfg.wantTtl)]
  {
    hide LR.IsEmpty, LR.Difference, LR.Union, RelayedRanges, RelayOf, RecentHaves, NetworkAsk, NextHave,
         NextWant, I.AnyUncoveredBy, Adopted, MayTick, WantDue, HaveDue;
  }

  lemma SeenRecordSurvives(cfg: Config, s: State, a: Action, s': State, fx: seq<Effect>, w: Interest, left: Time)
    requires Step(cfg, s, a) == R.Some((s', fx)) && SeenFor(s, w, left)
    requires a.Tick? ==> a.dur < left
    ensures SeenFor(s', w, if a.Tick? then left - a.dur else left)
  {
    SeenStep(cfg, s, a, s', fx);
    hide Step, NotedWants, SendsWant, AgeSeen;
    if a.Tick? {
      AgeSeenKeeps(s.seen, a.dur, SeenWant(w, left));
    }
  }

  lemma {:induction false} SeenRecordOverRun(cfg: Config, run: Run, i: nat, j: nat, w: Interest)
    requires IsRun(cfg, run) && i < j <= |run.actions|
    requires SendsWant(run.fx[i], w)
    requires Elapsed(run.actions, i + 1, j) < cfg.wantTtl
    ensures SeenFor(run.states[j], w, cfg.wantTtl - Elapsed(run.actions, i + 1, j))
    decreases j - i
  {
    hide Step, SendsWant;
    assert StepAt(cfg, run, j - 1);
    if j == i + 1 {
      SeenStep(cfg, run.states[i], run.actions[i], run.states[j], run.fx[i]);
      SentIsNow(cfg, run.states[i], run.actions[i], run.states[j], run.fx[i], w);
    } else {
      SeenRecordOverRun(cfg, run, i, j - 1, w);
      SeenRecordSurvives(cfg, run.states[j - 1], run.actions[j - 1], run.states[j], run.fx[j - 1], w,
                         cfg.wantTtl - Elapsed(run.actions, i + 1, j - 1));
    }
  }

  lemma SentIsNow(cfg: Config, s: State, a: Action, s': State, fx: seq<Effect>, w: Interest)
    requires Step(cfg, s, a) == R.Some((s', fx)) && SendsWant(fx, w)
    ensures SeenFor(s', w, cfg.wantTtl)
  {
    SeenStep(cfg, s, a, s', fx);
    hide Step, NotedWants;
    TickSendsNothing(cfg, s, a, s', fx);
    assert NotedWants(cfg, a, fx)[0] == SeenWant(w, cfg.wantTtl);
  }

  lemma TickSendsNothing(cfg: Config, s: State, a: Action, s': State, fx: seq<Effect>)
    requires Step(cfg, s, a) == R.Some((s', fx))
    ensures a.Tick? ==> fx == []
  {
    hide Ticked, MayTick;
  }

  /** A Want that a run has sent, fired or relayed, is not relayed again by any receipt of it before the Want TTL
      has passed. */
  lemma OneWantPerTtl(cfg: Config, run: Run, i: nat, j: nat, w: Interest)
    requires IsRun(cfg, run) && i < j < |run.actions|
    requires SendsWant(run.fx[i], w)
    requires run.actions[j].RecvWant? && run.actions[j].interest == w && SendsWant(run.fx[j], w)
    ensures cfg.wantTtl <= Elapsed(run.actions, i + 1, j)
  {
    hide Step, SendsWant;
    if Elapsed(run.actions, i + 1, j) < cfg.wantTtl {
      SeenRecordOverRun(cfg, run, i, j, w);
      assert StepAt(cfg, run, j);
      EchoSendsNothing(cfg, run.states[j], run.actions[j], run.states[j + 1], run.fx[j], w,
                       cfg.wantTtl - Elapsed(run.actions, i + 1, j));
    }
  }

  lemma EchoSendsNothing(cfg: Config, s: State, a: Action, s': State, fx: seq<Effect>, w: Interest, left: Time)
    requires Step(cfg, s, a) == R.Some((s', fx)) && a.RecvWant? && a.interest == w && SeenFor(s, w, left)
    ensures fx == [] && !SendsWant(fx, w)
  {
    hide ReceivedWant;
    EchoIsNotRelayed(cfg, s, a.from, SeenWant(w, left));
  }

  /** The rate limit of a node's own Wants: having sent a Want, for less than its TTL no Want the node fires repeats
      an entry of it. Where the interest has not changed, the node then fires nothing exactly when every entry that
      the first Want left out, because others were asking, is asked for by others still. */
  lemma UnchangedInterestIsSilent(cfg: Config, run: Run, i: nat, j: nat, w: Interest)
    requires IsRun(cfg, run) && i < j < |run.actions|
    requires run.actions[i].FireWant? && SendsWant(run.fx[i], w) && run.actions[j].FireWant?
    requires Elapsed(run.actions, i + 1, j) < cfg.wantTtl
    ensures forall c, w' :: SendsWant(run.fx[j], w') && c in w' ==> !(c in w && w[c] == w'[c])
    ensures MyInterest(run.states[j]) == MyInterest(run.states[i]) ==>
              (run.fx[j] == [] <==>
               forall c :: c in MyInterest(run.states[j]) && c !in w ==>
                 I.CoveredBy(MyInterest(run.states[j])[c], c, SeenInterests(run.states[j].seen)))
  {
    hide Step, SendsWant, FiredWant, MyInterest, I.CoveredBy, NextWant, SeenInterests;
    var s, t := run.states[i], run.states[j];
    assert StepAt(cfg, run, i) && StepAt(cfg, run, j);
    FiredSends(cfg, s, run.states[i + 1], run.fx[i]);
    FiredSends(cfg, t, run.states[j + 1], run.fx[j]);
    SentIs(cfg, s, run.fx[i], w);
    SeenRecordOverRun(cfg, run, i, j, w);
    forall c | c in w && c in MyInterest(t) && w[c] == MyInterest(t)[c] ensures c !in NextWant(t) {
      StillCovered(t, w, c, cfg.wantTtl - Elapsed(run.actions, i + 1, j));
    }
    forall c, w' | SendsWant(run.fx[j], w') && c in w' ensures !(c in w && w[c] == w'[c]) {
      SentIs(cfg, t, run.fx[j], w');
      UncoveredIs(t, c);
    }
    if MyInterest(t) == MyInterest(s) {
      forall c ensures c in NextWant(t) <==>
                       c in MyInterest(t) && c !in w && !I.CoveredBy(MyInterest(t)[c], c, SeenInterests(t.seen))
      {
        UncoveredIs(t, c);
        UncoveredIs(s, c);
      }
      assert NextWant(t) == map[] <==> forall c :: c !in NextWant(t);
    }
  }

  lemma FiredSends(cfg: Config, s: State, s': State, fx: seq<Effect>)
    requires Step(cfg, s, FireWant) == R.Some((s', fx))
    ensures fx == if NextWant(s) == map[] then [] else [SendWant(NextWant(s))]
  {
    hide NextWant;
  }

  lemma SentIs(cfg: Config, s: State, fx: seq<Effect>, w: Interest)
    requires fx == if NextWant(s) == map[] then [] else [SendWant(NextWant(s))]
    requires SendsWant(fx, w)
    ensures w == NextWant(s)
  {
    hide NextWant;
  }

  lemma StillCovered(s: State, w: Interest, c: Channel, left: Time)
    requires SeenFor(s, w, left) && c in w && c in MyInterest(s) && w[c] == MyInterest(s)[c]
    ensures c !in NextWant(s)
  {
    hide MyInterest, NextWant, I.CoveredBy;
    var n :| 0 <= n < |s.seen| && s.seen[n] == SeenWant(w, left);
    assert SeenInterests(s.seen)[n] == w;
    I.SeenIsCovered(w, SeenInterests(s.seen));
    UncoveredIs(s, c);
  }

  /** Two channels of interest, the Want due, and somebody else's Want for the second channel about to be
      forgotten. */
  ghost predicate HalfAsked(s: State, a: Channel, b: Channel) {
    && s.wantTimer == R.Some(0) && s.haveTimer.None? && (forall c :: c in s.heard ==> 1 < s.heard[c])
    && a != b && MyInterest(s).Keys == {a, b}
    && s.seen == [SeenWant(map[b := MyInterest(s)[b]], 1)]
  }

  /** There an unchanged interest is sent in two halves, within the TTL: a Want for the first channel, and, once the
      other's Want is forgotten, one for the second. */
  lemma UnchangedInterestFiresAgain(cfg: Config, s: State, ka: Key, kb: Key) returns (run: Run)
    requires 1 < cfg.wantTtl && HalfAsked(s, ka.log.channel, kb.log.channel)
    requires !LR.Has(s.held, ka) && !LR.Has(s.held, kb)
    ensures IsRun(cfg, run) && |run.actions| == 4 && run.states[0] == s
    ensures run.actions[0].FireWant? && run.actions[3].FireWant? && Elapsed(run.actions, 1, 3) == 1
    ensures MyInterest(run.states[3]) == MyInterest(s)
    ensures var i, a, b := MyInterest(s), ka.log.channel, kb.log.channel;
            run.fx[0] == [SendWant(map[a := i[a]])] && run.fx[3] == [SendWant(map[b := i[b]])]
  {
    hide Step, NextWant, MyInterest, LR.Has, IsRun, Elapsed;
    var i := MyInterest(s);
    var theirs, mine: Interest := map[kb.log.channel := i[kb.log.channel]], map[ka.log.channel := i[ka.log.channel]];
    var s1 := OneChannelFires(cfg, s, i, theirs, ka);
    var s2 := Arms(cfg, s1);
    var s3 := ATick(cfg, s2, theirs, mine);
    var s4 := OneChannelFires(cfg, s3, i, mine, kb);
    run := FourSteps(cfg, s, s1, s2, s3, s4, [SendWant(mine)], [SendWant(theirs)]);
  }

  ghost predicate Leads(cfg: Config, s: State, a: Action, s': State, fx: seq<Effect>) {
    Step(cfg, s, a) == R.Some((s', fx))
  }

  lemma FourSteps(cfg: Config, s: State, s1: State, s2: State, s3: State, s4: State, fx: seq<Effect>, fx': seq<Effect>)
    returns (run: Run)
    requires Leads(cfg, s, FireWant, s1, fx) && Leads(cfg, s1, ArmWantTimer(1), s2, [])
    requires Leads(cfg, s2, Tick(1), s3, []) && Leads(cfg, s3, FireWant, s4, fx')
    ensures run == Run([s, s1, s2, s3, s4], [FireWant, ArmWantTimer(1), Tick(1), FireWant], [fx, [], [], fx'])
    ensures IsRun(cfg, run) && |run.actions| == 4 && Elapsed(run.actions, 1, 3) == 1
  {
    hide Step;
    run := Run([s, s1, s2, s3, s4], [FireWant, ArmWantTimer(1), Tick(1), FireWant], [fx, [], [], fx']);
    assert StepAt(cfg, run, 0) && StepAt(cfg, run, 1) && StepAt(cfg, run, 2) && StepAt(cfg, run, 3);
    ElapsedOne(run.actions);
  }

  lemma Arms(cfg: Config, s: State) returns (s': State)
    requires s.wantTimer.None?
    ensures Step(cfg, s, ArmWantTimer(1)) == R.Some((s', []))
    ensures s'.wantTimer == R.Some(1) && s'.haveTimer == s.haveTimer && s'.heard == s.heard
    ensures s'.held == s.held && s'.seen == s.seen && MyInterest(s') == MyInterest(s)
  {
    hide MyInterest;
    s' := s.(wantTimer := R.Some(1));
    SameInterest(s, s');
  }

  /** The tick on which one Want is forgotten and the other lives on. */
  lemma ATick(cfg: Config, s: State, theirs: Interest, mine: Interest) returns (s': State)
    requires 1 < cfg.wantTtl && s.wantTimer == R.Some(1) && s.haveTimer.None?
    requires forall c :: c in s.heard ==> 1 < s.heard[c]
    requires s.seen == [SeenWant(theirs, 1)] + [SeenWant(mine, cfg.wantTtl)]
    ensures Step(cfg, s, Tick(1)) == R.Some((s', []))
    ensures s'.wantTimer == R.Some(0) && s'.seen == [SeenWant(mine, cfg.wantTtl - 1)] && s'.held == s.held
    ensures MyInterest(s') == MyInterest(s)
  {
    hide MyInterest, AgeSeen, AgeHaves, AgeRecords;
    AgedTwo(theirs, mine, cfg.wantTtl);
    s' := Ticked(s, 1);
    SameInterest(s, s');
  }

  lemma ElapsedOne(actions: seq<Action>)
    requires |actions| == 4 && actions[1].ArmWantTimer? && actions[2] == Tick(1)
    ensures Elapsed(actions, 1, 3) == 1
  {
    assert Elapsed(actions, 1, 2) == 0;
  }

  lemma AgedTwo(theirs: Interest, mine: Interest, ttl: Time)
    requires 1 < ttl
    ensures AgeSeen([SeenWant(theirs, 1)] + [SeenWant(mine, ttl)], 1) == [SeenWant(mine, ttl - 1)]
  {
    var both, last := [SeenWant(theirs, 1)] + [SeenWant(mine, ttl)], [SeenWant(mine, ttl)];
    assert both[1..] == last && last[1..] == [];
    assert AgeSeen(last, 1) == [SeenWant(mine, ttl - 1)] + AgeSeen(last[1..], 1);
    assert AgeSeen(both, 1) == [] + AgeSeen(both[1..], 1);
  }

  lemma SameInterest(s: State, s': State)
    requires s'.held == s.held && s'.openChannels == s.openChannels && s'.heard.Keys == s.heard.Keys
    ensures MyInterest(s') == MyInterest(s)
  {
  }

  /** With two channels of interest, of which the Wants seen cover one whole, the other is what is sent. */
  lemma OneChannel(s: State, i: Interest, theirs: Interest, k: Key)
    requires MyInterest(s) == i && k.log.channel in i && !LR.Has(s.held, k)
    requires |s.seen| == 1 && s.seen[0].interest == theirs
    requires k.log.channel !in theirs && i.Keys == theirs.Keys + {k.log.channel}
    requires forall c :: c in theirs ==> theirs[c] == i[c]
    ensures NextWant(s) == map[k.log.channel := i[k.log.channel]]
  {
    hide MyInterest, I.CoveredBy, LR.Has, NextWant;
    var interests, c := SeenInterests(s.seen), k.log.channel;
    assert interests[0] == theirs;
    InterestAsks(s, k);
    I.SeenIsCovered(theirs, interests);
    I.CoveredByMeans(i[c], c, interests);
    forall x ensures x in NextWant(s) <==> x == c {
      UncoveredIs(s, x);
    }
    UncoveredIs(s, c);
  }

  lemma OneChannelFires(cfg: Config, s: State, i: Interest, theirs: Interest, k: Key) returns (s': State)
    requires WantDue(s)
    requires MyInterest(s) == i && k.log.channel in i && !LR.Has(s.held, k)
    requires |s.seen| == 1 && s.seen[0].interest == theirs
    requires k.log.channel !in theirs && i.Keys == theirs.Keys + {k.log.channel}
    requires forall c :: c in theirs ==> theirs[c] == i[c]
    ensures var mine := map[k.log.channel := i[k.log.channel]];
            && Step(cfg, s, FireWant) == R.Some((s', [SendWant(mine)]))
            && s'.seen == s.seen + [SeenWant(mine, cfg.wantTtl)]
    ensures s'.wantTimer.None? && s'.haveTimer == s.haveTimer && s'.heard == s.heard && s'.held == s.held
    ensures MyInterest(s') == i
  {
    hide MyInterest, NextWant, LR.Has;
    OneChannel(s, i, theirs, k);
    s' := FiredWant(cfg, s).0;
    SameInterest(s, s');
  }

  lemma InterestAsks(s: State, k: Key)
    requires k.log.channel in MyInterest(s) && !LR.Has(s.held, k)
    ensures I.EntryAsks(MyInterest(s)[k.log.channel], k.log.author, k.at)
  {
    hide LR.Has, ChannelsOfInterest;
    assert I.Asks(MyInterest(s), k);
  }
}

/** What each step of the router means, key by key. */
module RouterLaws {
  import R = Ranges
  import opened Logs
  import LR = LogRanges
  import I = Interests
  import opened Router

  // ---- A router's state, read by key ----

  /** Some seen Want asks for `k`. */
  ghost predicate Asked(s: State, k: Key) {
    exists w :: w in s.seen && I.Asks(w.interest, k)
  }

  /** The last Have of some node, still remembered, lists `k`. */
  ghost predicate Recent(s: State, k: Key) {
    exists n :: n in s.haves && LR.Has(s.haves[n].ranges, k)
  }

  ghost predicate HeldUnder(s: State, c: Channel) {
    exists k: Key :: k.log.channel == c && LR.Has(s.held, k)
  }

  predicate AcceptsKey(fx: seq<Effect>, k: Key) {
    exists e :: e in fx && e.Accept? && LR.Has(e.ranges, k)
  }

  lemma AskedIs(s: State, k: Key)
    ensures Asked(s, k) <==> I.AskedBy(SeenInterests(s.seen), k)
  {
    hide I.Asks;
    if Asked(s, k) {
      var w :| w in s.seen && I.Asks(w.interest, k);
      var i :| 0 <= i < |s.seen| && s.seen[i] == w;
      assert SeenInterests(s.seen)[i] == w.interest;
    }
    if I.AskedBy(SeenInterests(s.seen), k) {
      var i :| 0 <= i < |s.seen| && I.Asks(SeenInterests(s.seen)[i], k);
      assert s.seen[i] in s.seen;
    }
  }

  // ---- What is refused ----

  /** What makes an action possible. */
  ghost predicate Possible(s: State, a: Action) {
    match a
    case Tick(d) => 0 < d && (s.wantTimer.Some? ==> d <= s.wantTimer.value) && (s.haveTimer.Some? ==> d <= s.haveTimer.value)
    case ArmWantTimer(_) => s.wantTimer.None?
    case ArmHaveTimer(_) => s.haveTimer.None? && exists k :: LR.Has(s.held, k) && Asked(s, k)
    case FireWant => s.wantTimer == R.Some(0)
    case FireHave => s.haveTimer == R.Some(0)
    case RecvWant(from, _) => from != s.id
    case RecvHave(from, _) => from != s.id
    case Push(ranges) => exists k :: LR.Has(ranges, k)
    case _ => true
  }

  lemma SomeKey(lr: LogRanges)
    ensures LR.IsEmpty(lr) <==> forall k :: !LR.Has(lr, k)
  {
    LR.EmptyHasNothing(lr);
  }

  /** A step is refused exactly when it is not possible. */
  lemma StepsIffPossible(cfg: Config, s: State, a: Action)
    ensures Step(cfg, s, a).Some? <==> Possible(s, a)
  {
    hide LR.Has, LR.IsEmpty, Asked, FiredWant, FiredHave, Pushed, ReceivedWant, ReceivedHave;
    if a.ArmHaveTimer? {
      SomeKey(NetworkAsk(s));
      AskIs(s);
    }
    if a.Push? {
      SomeKey(a.ranges);
    }
  }

  lemma AskIs(s: State)
    ensures forall k :: LR.Has(NetworkAsk(s), k) <==> LR.Has(s.held, k) && Asked(s, k)
  {
    hide LR.Has, Asked, I.AskedBy;
    forall k ensures LR.Has(NetworkAsk(s), k) <==> LR.Has(s.held, k) && Asked(s, k) {
      AskedIs(s, k);
    }
  }

  // ---- A Want arrives ----

  /** The Want asks for something that no seen Want asks for. */
  ghost predicate AsksAnew(s: State, w: Interest) {
    exists k :: I.Asks(w, k) && !Asked(s, k)
  }

  lemma AnewIs(s: State, w: Interest)
    ensures AsksAnew(s, w) <==> I.AnyUncoveredBy(w, SeenInterests(s.seen))
  {
    hide Asked, I.CoveredBy, I.EntryAsks;
    var seen := SeenInterests(s.seen);
    if AsksAnew(s, w) {
      var k :| I.Asks(w, k) && !Asked(s, k);
      AskedIs(s, k);
      I.CoveredByMeans(w[k.log.channel], k.log.channel, seen);
    }
    if I.AnyUncoveredBy(w, seen) {
      var c :| c in w && !I.CoveredBy(w[c], c, seen);
      I.CoveredByMeans(w[c], c, seen);
      var k: Key :| k.log.channel == c && I.EntryAsks(w[c], k.log.author, k.at) && !I.AskedBy(seen, k);
      AskedIs(s, k);
    }
  }

  /** A channel that the sender lists an author under, and this node holds nothing under. */
  ghost predicate Adoptable(s: State, w: Interest, c: Channel) {
    c in w && w[c].have != map[] && !HeldUnder(s, c)
  }

  /** A Want is passed on, unchanged, exactly when it asks for something nobody is known to ask for. Its asks are
      remembered, for a full lifetime. The channels somebody holds and this node does not are of interest from then
      on, for a full lifetime; the others stay as they were. Nothing else changes. */
  lemma WantReceived(cfg: Config, s: State, from: NodeId, w: Interest, s': State, fx: seq<Effect>)
    requires Step(cfg, s, RecvWant(from, w)) == R.Some((s', fx))
    ensures fx == if AsksAnew(s, w) then [SendWant(w)] else []
    ensures forall k :: Asked(s', k) <==> Asked(s, k) || I.Asks(w, k)
    ensures SeenWant(w, cfg.wantTtl) in s'.seen && forall x :: x in s.seen ==> x in s'.seen
    ensures forall c :: c in s'.heard <==> c in s.heard || Adoptable(s, w, c)
    ensures forall c :: c in s'.heard ==> s'.heard[c] == if Adoptable(s, w, c) then cfg.heardTtl else s.heard[c]
    ensures forall c :: Adoptable(s, w, c) ==> c in MyInterest(s')
    ensures s' == s.(seen := s'.seen, heard := s'.heard)
  {
    hide AsksAnew, I.AnyUncoveredBy, I.Asks, MyInterest, HeldUnder, Asked;
    AnewIs(s, w);
    AdoptedIs(cfg, s, w);
    AskedMore(s, s', SeenWant(w, cfg.wantTtl));
    InterestSources(s');
  }

  lemma AskedMore(s: State, s': State, w: SeenWant)
    ensures s'.seen == s.seen + [w] ==> forall k :: Asked(s', k) <==> Asked(s, k) || I.Asks(w.interest, k)
  {
    hide I.Asks;
    if s'.seen == s.seen + [w] {
      assert w in s'.seen;
    }
  }

  lemma AdoptedIs(cfg: Config, s: State, w: Interest)
    ensures forall c :: c in Adopted(cfg, s, w) <==> Adoptable(s, w, c)
  {
    hide LR.Has, I.HoldsUnder;
    forall c ensures c in Adopted(cfg, s, w) <==> Adoptable(s, w, c) {
      I.HoldsUnderHas(s.held, c);
    }
  }

  // ---- A Have arrives, or a push ----

  /** What a Have lists is held from then on; what was not held before is accepted, before anything is sent; what the
      seen-set does not have is passed on, whether it is new here or not; and the Have is remembered as its sender's
      last. Nothing else changes. */
  lemma HaveReceived(cfg: Config, s: State, from: NodeId, ranges: LogRanges, s': State, fx: seq<Effect>)
    requires Step(cfg, s, RecvHave(from, ranges)) == R.Some((s', fx))
    ensures forall k :: LR.Has(s'.held, k) <==> LR.Has(s.held, k) || LR.Has(ranges, k)
    ensures forall k :: AcceptsKey(fx, k) <==> LR.Has(ranges, k) && !LR.Has(s.held, k)
    ensures forall k :: SendsKey(fx, k) <==> LR.Has(ranges, k) && !Relayed(s.relayed, k)
    ensures |fx| <= 2 && (forall e :: e in fx ==> !e.SendWant?) && (|fx| == 2 ==> fx[0].Accept? && fx[1].SendHave?)
    ensures s' == s.(held := s'.held, relayed := s'.relayed, haves := s.haves[from := Record(ranges, cfg.haveTtl)])
    ensures forall k :: Relayed(s'.relayed, k) <==> Relayed(s.relayed, k) || SendsKey(fx, k)
  {
    hide Step, LR.Has, LR.IsEmpty, Relayed, AcceptsKey, SendsKey;
    var novel, relay := LR.Difference(ranges, s.held), RelayOf(s, ranges);
    ReceivedShape(cfg, s, from, ranges, s', fx);
    RelayMeans(s, ranges);
    hide RelayOf;
    EffectKeys(novel, relay);
    RelayedGrows(cfg, s, s', relay);
  }

  lemma ReceivedShape(cfg: Config, s: State, from: NodeId, ranges: LogRanges, s': State, fx: seq<Effect>)
    requires Step(cfg, s, RecvHave(from, ranges)) == R.Some((s', fx))
    ensures var novel, relay := LR.Difference(ranges, s.held), RelayOf(s, ranges);
            var accept: seq<Effect> := if LR.IsEmpty(novel) then [] else [Accept(novel)];
            var send: seq<Effect> := if LR.IsEmpty(relay) then [] else [SendHave(relay)];
            && fx == accept + send
            && s'.relayed == (if LR.IsEmpty(relay) then s.relayed else s.relayed + [Record(relay, cfg.haveTtl)])
    ensures forall k :: LR.Has(s'.held, k) <==> LR.Has(s.held, k) || LR.Has(ranges, k)
    ensures s' == s.(held := s'.held, relayed := s'.relayed, haves := s.haves[from := Record(ranges, cfg.haveTtl)])
  {
    hide LR.Has, LR.IsEmpty, RelayOf;
    SomeKey(LR.Difference(ranges, s.held));
  }

  lemma RelayMeans(s: State, ranges: LogRanges)
    ensures forall k :: LR.Has(RelayOf(s, ranges), k) <==> LR.Has(ranges, k) && !Relayed(s.relayed, k)
  {
    hide LR.Has, Relayed;
  }

  lemma EffectKeys(novel: LogRanges, relay: LogRanges)
    ensures var accept: seq<Effect> := if LR.IsEmpty(novel) then [] else [Accept(novel)];
            var send: seq<Effect> := if LR.IsEmpty(relay) then [] else [SendHave(relay)];
            && (forall k :: AcceptsKey(accept + send, k) <==> LR.Has(novel, k))
            && (forall k :: SendsKey(accept + send, k) <==> LR.Has(relay, k))
  {
    hide LR.Has, LR.IsEmpty;
    SomeKey(novel);
    SomeKey(relay);
    var accept: seq<Effect> := if LR.IsEmpty(novel) then [] else [Accept(novel)];
    var send: seq<Effect> := if LR.IsEmpty(relay) then [] else [SendHave(relay)];
    var fx := accept + send;
    forall k ensures AcceptsKey(fx, k) <==> LR.Has(novel, k) {
      if LR.Has(novel, k) {
        assert Accept(novel) in fx;
      }
    }
    forall k ensures SendsKey(fx, k) <==> LR.Has(relay, k) {
      if LR.Has(relay, k) {
        assert SendHave(relay) in fx;
      }
    }
  }

  lemma RelayedGrows(cfg: Config, s: State, s': State, relay: LogRanges)
    requires s'.relayed == if LR.IsEmpty(relay) then s.relayed else s.relayed + [Record(relay, cfg.haveTtl)]
    ensures forall k :: Relayed(s'.relayed, k) <==> Relayed(s.relayed, k) || LR.Has(relay, k)
  {
    hide LR.Has, LR.IsEmpty, Relayed;
    SomeKey(relay);
    forall k ensures Relayed(s'.relayed, k) <==> Relayed(s.relayed, k) || LR.Has(relay, k) {
      if !LR.IsEmpty(relay) {
        RelayedSnoc(s.relayed, Record(relay, cfg.haveTtl), k);
      }
    }
  }

  /** What is pushed is held, and sent as far as the seen-set does not have it; what is sent is remembered as this
      node's own last Have. */
  lemma PushDone(cfg: Config, s: State, ranges: LogRanges, s': State, fx: seq<Effect>)
    requires Step(cfg, s, Push(ranges)) == R.Some((s', fx))
    ensures forall k :: LR.Has(s'.held, k) <==> LR.Has(s.held, k) || LR.Has(ranges, k)
    ensures forall k :: SendsKey(fx, k) <==> LR.Has(ranges, k) && !Relayed(s.relayed, k)
    ensures fx == [] || (|fx| == 1 && fx[0].SendHave?)
    ensures s' == s.(held := s'.held, relayed := s'.relayed,
                     haves := if fx == [] then s.haves else s.haves[s.id := Record(fx[0].ranges, cfg.haveTtl)])
    ensures forall k :: Relayed(s'.relayed, k) <==> Relayed(s.relayed, k) || SendsKey(fx, k)
  {
    hide Step, LR.Has, LR.IsEmpty, Relayed, SendsKey;
    var relay := RelayOf(s, ranges);
    PushShape(cfg, s, ranges, s', fx);
    RelayMeans(s, ranges);
    hide RelayOf;
    OneHave(relay);
    RelayedGrows(cfg, s, s', relay);
  }

  lemma PushShape(cfg: Config, s: State, ranges: LogRanges, s': State, fx: seq<Effect>)
    requires Step(cfg, s, Push(ranges)) == R.Some((s', fx))
    ensures var relay := RelayOf(s, ranges);
            && fx == (if LR.IsEmpty(relay) then [] else [SendHave(relay)])
            && s'.relayed == (if LR.IsEmpty(relay) then s.relayed else s.relayed + [Record(relay, cfg.haveTtl)])
    ensures forall k :: LR.Has(s'.held, k) <==> LR.Has(s.held, k) || LR.Has(ranges, k)
    ensures s' == s.(held := s'.held, relayed := s'.relayed,
                     haves := if fx == [] then s.haves else s.haves[s.id := Record(fx[0].ranges, cfg.haveTtl)])
  {
    hide LR.Has, LR.IsEmpty, RelayOf;
  }

  lemma OneHave(relay: LogRanges)
    ensures var send: seq<Effect> := if LR.IsEmpty(relay) then [] else [SendHave(relay)];
            forall k :: SendsKey(send, k) <==> LR.Has(relay, k)
  {
    hide LR.Has, LR.IsEmpty;
    SomeKey(relay);
    forall k ensures SendsKey([SendHave(relay)], k) <==> LR.Has(relay, k) {
      assert SendHave(relay) in [SendHave(relay)];
    }
  }

  // ---- Timers fire ----

  /** There is something under `c` that the node does not hold and nobody is known to ask for. */
  ghost predicate Lacks(s: State, c: Channel) {
    exists k: Key :: k.log.channel == c && !LR.Has(s.held, k) && !Asked(s, k)
  }

  /** A Want fires: under each channel of interest, unless all the node lacks there is asked for already, it asks for
      all the node lacks there, and it lists an author exactly where the node holds something; it is remembered; and
      it leaves the timer to be armed again. */
  lemma WantFired(cfg: Config, s: State, s': State, fx: seq<Effect>)
    requires Step(cfg, s, FireWant) == R.Some((s', fx))
    ensures fx == [] || (|fx| == 1 && fx[0].SendWant?)
    ensures var w := if fx == [] then map[] else fx[0].interest;
            && (forall c :: c in w <==> OfInterest(s, c) && Lacks(s, c))
            && (forall k: Key :: I.Asks(w, k) <==> k.log.channel in w && !LR.Has(s.held, k))
            && (forall c :: c in w ==> (w[c].have == map[] <==> !HeldUnder(s, c)))
    ensures s' == s.(wantTimer := R.None,
                     seen := if fx == [] then s.seen else s.seen + [SeenWant(fx[0].interest, cfg.wantTtl)])
  {
    hide LR.Has, OfInterest, Asked, MyInterest, NextWant, HeldUnder, I.EntryAsks;
    forall c
      ensures c in NextWant(s) <==> OfInterest(s, c) && Lacks(s, c)
      ensures c in NextWant(s) ==> c in MyInterest(s) && NextWant(s)[c] == MyInterest(s)[c]
                                   && (MyInterest(s)[c].have == map[] <==> !HeldUnder(s, c))
    {
      NextWantAt(s, c);
    }
    InterestSources(s);
    forall k: Key ensures I.Asks(NextWant(s), k) <==> k.log.channel in NextWant(s) && !LR.Has(s.held, k) {
      NextWantAsks(s, k);
    }
  }

  lemma NextWantAsks(s: State, k: Key)
    ensures I.Asks(NextWant(s), k) <==> k.log.channel in NextWant(s) && !LR.Has(s.held, k)
  {
    hide LR.Has, MyInterest, NextWant, OfInterest, I.EntryAsks;
    UncoveredIs(s, k.log.channel);
    InterestSources(s);
    assert I.Asks(MyInterest(s), k) <==> OfInterest(s, k.log.channel) && !LR.Has(s.held, k);
  }

  lemma NextWantAt(s: State, c: Channel)
    ensures c in NextWant(s) <==> OfInterest(s, c) && Lacks(s, c)
    ensures c in NextWant(s) ==> c in MyInterest(s) && NextWant(s)[c] == MyInterest(s)[c]
                                 && (MyInterest(s)[c].have == map[] <==> !HeldUnder(s, c))
  {
    hide LR.Has, OfInterest, Asked, NextWant, I.EntryAsks, I.CoveredBy, I.HoldsUnder;
    UncoveredIs(s, c);
    InterestSources(s);
    I.HoldsUnderHas(s.held, c);
    if c in MyInterest(s) {
      I.CoveredByMeans(MyInterest(s)[c], c, SeenInterests(s.seen));
      forall k: Key | k.log.channel == c
        ensures I.EntryAsks(MyInterest(s)[c], k.log.author, k.at) <==> !LR.Has(s.held, k)
        ensures Asked(s, k) <==> I.AskedBy(SeenInterests(s.seen), k)
      {
        assert I.Asks(MyInterest(s), k) <==> OfInterest(s, c) && !LR.Has(s.held, k);
        AskedIs(s, k);
      }
    }
  }

  /** A Have fires: it lists exactly what is held, asked for, and in nobody's last Have; it is remembered as this
      node's own last, and as passed on; and it leaves the timer to be armed again. */
  lemma HaveFired(cfg: Config, s: State, s': State, fx: seq<Effect>)
    requires Step(cfg, s, FireHave) == R.Some((s', fx))
    ensures forall k :: SendsKey(fx, k) <==> LR.Has(s.held, k) && Asked(s, k) && !Recent(s, k)
    ensures fx == [] || (|fx| == 1 && fx[0].SendHave?)
    ensures s' == if fx == [] then s.(haveTimer := R.None)
                  else s.(haveTimer := R.None, relayed := s.relayed + [Record(fx[0].ranges, cfg.haveTtl)],
                          haves := s.haves[s.id := Record(fx[0].ranges, cfg.haveTtl)])
  {
    hide LR.Has, LR.IsEmpty, Asked, Recent;
    NextHaveMeans(s);
    hide NextHave;
    OneHave(NextHave(s));
  }

  lemma NextHaveMeans(s: State)
    ensures forall k :: LR.Has(NextHave(s), k) <==> LR.Has(s.held, k) && Asked(s, k) && !Recent(s, k)
  {
    hide LR.Has, Asked;
    AskIs(s);
    hide NetworkAsk;
    forall k ensures LR.Has(RecentHaves(s.haves), k) <==> Recent(s, k) {
    }
  }

  // ---- Time passes ----

  /** Both timers run down by the tick; the records' times are the subject of `TickExpiresExactly`. */
  lemma TimersRun(cfg: Config, s: State, d: Time, s': State, fx: seq<Effect>)
    requires Step(cfg, s, Tick(d)) == R.Some((s', fx))
    ensures fx == []
    ensures s'.wantTimer == if s.wantTimer.Some? then R.Some(s.wantTimer.value - d) else R.None
    ensures s'.haveTimer == if s.haveTimer.Some? then R.Some(s.haveTimer.value - d) else R.None
    ensures s'.id == s.id && s'.held == s.held && s'.openChannels == s.openChannels
  {
    hide AgeRecords, AgeSeen, AgeHaves, AgeHeard;
  }

  /** The other actions set the one field they are about. */
  lemma OneField(cfg: Config, s: State, a: Action, s': State, fx: seq<Effect>)
    requires Step(cfg, s, a) == R.Some((s', fx))
    ensures a.ArmWantTimer? ==> s' == s.(wantTimer := R.Some(a.interval)) && fx == []
    ensures a.ArmHaveTimer? ==> s' == s.(haveTimer := R.Some(a.interval)) && fx == []
    ensures a.Open? ==> s' == s.(openChannels := a.channels) && fx == []
    ensures a.Held? ==> s' == s.(held := a.ranges) && fx == []
  {
    hide LR.IsEmpty, NetworkAsk;
  }

  // ---- The last Have of each node, over a run ----

  /** The Have of `n` that a step witnesses: one received from it, or, of this node's own, one fired or pushed. What a
      receipt passes on is not counted as this node's own. */
  ghost function Witnessed(s: State, a: Action, fx: seq<Effect>, n: NodeId): Option<LogRanges> {
    match a
    case RecvHave(from, ranges) => if from == n then R.Some(ranges) else R.None
    case FireHave => if n == s.id && fx != [] && fx[0].SendHave? then R.Some(fx[0].ranges) else R.None
    case Push(_) => if n == s.id && fx != [] && fx[0].SendHave? then R.Some(fx[0].ranges) else R.None
    case _ => R.None
  }

  /** The last Have of `n` witnessed before step `j` of a run, and the step that witnessed it. */
  ghost function LastHave(run: Run, n: NodeId, j: nat): (last: Option<(nat, LogRanges)>)
    requires j <= |run.actions| && |run.states| == |run.actions| + 1 && |run.fx| == |run.actions|
    ensures last.Some? ==> last.value.0 < j
  {
    if j == 0 then R.None
    else
      var w := Witnessed(run.states[j - 1], run.actions[j - 1], run.fx[j - 1], n);
      if w.Some? then R.Some((j - 1, w.value)) else LastHave(run, n, j - 1)
  }

  /** What a step does to the record of one node's last Have. */
  lemma LastHaveStep(cfg: Config, s: State, a: Action, s': State, fx: seq<Effect>, n: NodeId)
    requires Step(cfg, s, a) == R.Some((s', fx))
    ensures var w := Witnessed(s, a, fx, n);
            if w.Some? then n in s'.haves && s'.haves[n] == Record(w.value, cfg.haveTtl)
            else if a.Tick? then
              (n in s'.haves <==> n in s.haves && a.dur < s.haves[n].ttlLeft)
              && (n in s'.haves ==> s'.haves[n] == s.haves[n].(ttlLeft := s.haves[n].ttlLeft - a.dur))
            else (n in s'.haves <==> n in s.haves) && (n in s'.haves ==> s'.haves[n] == s.haves[n])
  {
    hide Step, AcceptsKey, SendsKey, OfInterest, Lacks, Asked, AsksAnew, Adoptable, I.Asks, Relayed, LR.Has, Recent,
         HeldUnder, MyInterest, LR.IsEmpty;
    match a
    case Tick(d) => TickedHaves(cfg, s, d, s', fx, n);
    case RecvWant(from, w) => WantReceived(cfg, s, from, w, s', fx);
    case RecvHave(from, ranges) => HaveReceived(cfg, s, from, ranges, s', fx);
    case FireWant => WantFired(cfg, s, s', fx);
    case FireHave => HaveFired(cfg, s, s', fx);
    case Push(ranges) => PushDone(cfg, s, ranges, s', fx);
    case _ => OneField(cfg, s, a, s', fx);
  }

  lemma TickedHaves(cfg: Config, s: State, d: Time, s': State, fx: seq<Effect>, n: NodeId)
    requires Step(cfg, s, Tick(d)) == R.Some((s', fx))
    ensures n in s'.haves <==> n in s.haves && d < s.haves[n].ttlLeft
    ensures n in s'.haves ==> s'.haves[n] == s.haves[n].(ttlLeft := s.haves[n].ttlLeft - d)
  {
    hide AgeRecords, AgeSeen, AgeHeard;
  }

  /** In every state of a run that starts with no Have witnessed, a node's record is the last Have the run witnessed
      of it, for as long as less than a lifetime has passed since, and not longer. */
  lemma {:induction false} HavesAreLastWitnessed(cfg: Config, run: Run, n: NodeId, j: nat)
    requires IsRun(cfg, run) && j <= |run.actions| && 0 < cfg.haveTtl && n !in run.states[0].haves
    ensures var last, haves := LastHave(run, n, j), run.states[j].haves;
            && (n in haves <==> last.Some? && Elapsed(run.actions, last.value.0 + 1, j) < cfg.haveTtl)
            && (n in haves ==> haves[n] == Record(last.value.1, cfg.haveTtl - Elapsed(run.actions, last.value.0 + 1, j)))
  {
    hide Step, Witnessed;
    if j > 0 {
      HavesAreLastWitnessed(cfg, run, n, j - 1);
      assert StepAt(cfg, run, j - 1);
      LastHaveStep(cfg, run.states[j - 1], run.actions[j - 1], run.states[j], run.fx[j - 1], n);
      TickIsNoHave(run.states[j - 1], run.actions[j - 1], run.fx[j - 1], n);
    }
  }

  lemma TickIsNoHave(s: State, a: Action, fx: seq<Effect>, n: NodeId)
    ensures a.Tick? ==> Witnessed(s, a, fx, n).None?
  {
  }

  /** Some node's last Have, witnessed less than a lifetime before step `j`, lists `k`. */
  ghost predicate LatelyHad(cfg: Config, run: Run, j: nat, k: Key)
    requires j <= |run.actions| && |run.states| == |run.actions| + 1 && |run.fx| == |run.actions|
  {
    exists n :: LatelyHadFrom(cfg, run, j, k, n)
  }

  ghost predicate LatelyHadFrom(cfg: Config, run: Run, j: nat, k: Key, n: NodeId)
    requires j <= |run.actions| && |run.states| == |run.actions| + 1 && |run.fx| == |run.actions|
  {
    var last := LastHave(run, n, j);
    last.Some? && LR.Has(last.value.1, k) && Elapsed(run.actions, last.value.0 + 1, j) < cfg.haveTtl
  }

  /** What a Have that fires carries, over any run of a fresh router: what is held, is asked for by a Want seen less
      than its lifetime ago, and is in no node's last Have of less than a lifetime ago. */
  lemma FiredHaveIsExact(cfg: Config, run: Run, j: nat, k: Key)
    requires IsRun(cfg, run) && 0 < cfg.haveTtl && |run.states[0].haves| == 0
    requires j < |run.actions| && run.actions[j].FireHave?
    ensures SendsKey(run.fx[j], k)
            <==> LR.Has(run.states[j].held, k) && Asked(run.states[j], k) && !LatelyHad(cfg, run, j, k)
  {
    hide Step, SendsKey, Asked, LR.Has, Recent, LatelyHad, IsRun;
    StepOfRun(cfg, run, j);
    HaveFired(cfg, run.states[j], run.states[j + 1], run.fx[j]);
    RecentIsLatelyHad(cfg, run, j, k);
  }

  lemma StepOfRun(cfg: Config, run: Run, j: nat)
    requires IsRun(cfg, run) && j < |run.actions|
    ensures |run.states| == |run.actions| + 1 && |run.fx| == |run.actions|
    ensures Step(cfg, run.states[j], run.actions[j]) == R.Some((run.states[j + 1], run.fx[j]))
  {
    hide Step;
    assert StepAt(cfg, run, j);
  }

  lemma RecentIsLatelyHad(cfg: Config, run: Run, j: nat, k: Key)
    requires IsRun(cfg, run) && 0 < cfg.haveTtl && |run.states[0].haves| == 0 && j <= |run.actions|
    ensures Recent(run.states[j], k) <==> LatelyHad(cfg, run, j, k)
  {
    hide Step, LR.Has, LastHave, Elapsed, StepAt, LatelyHadFrom;
    forall n: NodeId
      ensures n in run.states[j].haves && LR.Has(run.states[j].haves[n].ranges, k) <==> LatelyHadFrom(cfg, run, j, k, n)
    {
      RecordIsLately(cfg, run, j, k, n);
    }
  }

  lemma RecordIsLately(cfg: Config, run: Run, j: nat, k: Key, n: NodeId)
    requires IsRun(cfg, run) && 0 < cfg.haveTtl && |run.states[0].haves| == 0 && j <= |run.actions|
    ensures n in run.states[j].haves && LR.Has(run.states[j].haves[n].ranges, k) <==> LatelyHadFrom(cfg, run, j, k, n)
  {
    hide IsRun, LR.Has, LastHave, Elapsed;
    HavesAreLastWitnessed(cfg, run, n, j);
  }

  /** So a Have once sent or received keeps what it lists from being fired, until its lifetime has passed or a later
      Have of the same node that does not list it has taken its place. */
  lemma WitnessedIsNotFired(cfg: Config, run: Run, i: nat, j: nat, n: NodeId, k: Key)
    requires IsRun(cfg, run) && 0 < cfg.haveTtl && |run.states[0].haves| == 0
    requires i < j < |run.actions| && run.actions[j].FireHave? && SendsKey(run.fx[j], k)
    requires var w := Witnessed(run.states[i], run.actions[i], run.fx[i], n); w.Some? && LR.Has(w.value, k)
    ensures cfg.haveTtl <= Elapsed(run.actions, i + 1, j)
            || exists t: nat :: i < t < j && Displaces(run, t, n, k)
  {
    hide Step, StepAt, SendsKey, LR.Has, Witnessed, Elapsed, Asked, LatelyHad, Displaces;
    FiredHaveIsExact(cfg, run, j, k);
    DisplacedOrOld(cfg, run, i, j, n, k, Witnessed(run.states[i], run.actions[i], run.fx[i], n).value);
  }

  lemma DisplacedOrOld(cfg: Config, run: Run, i: nat, j: nat, n: NodeId, k: Key, r0: LogRanges)
    requires i < j <= |run.actions| && |run.states| == |run.actions| + 1 && |run.fx| == |run.actions|
    requires !LatelyHad(cfg, run, j, k)
    requires Witnessed(run.states[i], run.actions[i], run.fx[i], n) == R.Some(r0) && LR.Has(r0, k)
    ensures cfg.haveTtl <= Elapsed(run.actions, i + 1, j)
            || exists t: nat :: i < t < j && Displaces(run, t, n, k)
  {
    hide LR.Has, Witnessed, Elapsed, LastHave, LatelyHad, Displaces;
    NotLately(cfg, run, j, k, n);
    LastHaveSince(run, n, i, j);
    var t, r := LastHave(run, n, j).value.0, LastHave(run, n, j).value.1;
    if LR.Has(r, k) {
      ElapsedShrinks(run.actions, i + 1, t + 1, j);
    } else {
      Displaced(run, t, r, n, k);
    }
  }

  lemma NotLately(cfg: Config, run: Run, j: nat, k: Key, n: NodeId)
    requires j <= |run.actions| && |run.states| == |run.actions| + 1 && |run.fx| == |run.actions|
    requires !LatelyHad(cfg, run, j, k)
    ensures var last := LastHave(run, n, j);
            last.Some? && LR.Has(last.value.1, k) ==>
              cfg.haveTtl <= Elapsed(run.actions, last.value.0 + 1, j)
  {
    hide LR.Has, LastHave, Elapsed;
    assert !LatelyHadFrom(cfg, run, j, k, n);
  }

  lemma Displaced(run: Run, t: nat, r: LogRanges, n: NodeId, k: Key)
    requires |run.states| == |run.actions| + 1 && |run.fx| == |run.actions| && t < |run.actions|
    requires Witnessed(run.states[t], run.actions[t], run.fx[t], n) == R.Some(r) && !LR.Has(r, k)
    ensures Displaces(run, t, n, k)
  {
    hide Witnessed, LR.Has;
  }

  /** The step witnesses a Have of `n` that does not list `k`. */
  ghost predicate Displaces(run: Run, t: nat, n: NodeId, k: Key)
    requires |run.states| == |run.actions| + 1 && |run.fx| == |run.actions|
  {
    t < |run.actions|
    && var w := Witnessed(run.states[t], run.actions[t], run.fx[t], n);
    w.Some? && !LR.Has(w.value, k)
  }

  lemma {:induction false} LastHaveSince(run: Run, n: NodeId, i: nat, j: nat)
    requires i < j <= |run.actions| && |run.states| == |run.actions| + 1 && |run.fx| == |run.actions|
    requires Witnessed(run.states[i], run.actions[i], run.fx[i], n).Some?
    ensures var last := LastHave(run, n, j);
            last.Some? && i <= last.value.0 < j
            && Witnessed(run.states[last.value.0], run.actions[last.value.0], run.fx[last.value.0], n)
               == R.Some(last.value.1)
  {
    hide Witnessed;
    if Witnessed(run.states[j - 1], run.actions[j - 1], run.fx[j - 1], n).None? {
      LastHaveSince(run, n, i, j - 1);
    }
  }

  lemma {:induction false} ElapsedShrinks(actions: seq<Action>, i: nat, t: nat, j: nat)
    requires i <= t <= j <= |actions|
    ensures Elapsed(actions, t, j) <= Elapsed(actions, i, j)
    decreases j - t
  {
    if t < j {
      ElapsedShrinks(actions, i, t, j - 1);
    }
  }
}

/** The router's transition as it runs: loops over what was seen, proved equal to the step function. */
module RouterMachine {
  import R = Ranges
  import opened Logs
  import LR = LogRanges
  import I = Interests
  import C = Coverage
  import opened Router

  /** `uncovered_by`: the entries the seen interests do not cover. */
  method Uncovered(i: Interest, seen: seq<Interest>) returns (out: Interest)
    ensures out == I.UncoveredBy(i, seen)
  {
    out := map[];
    var todo := i.Keys;
    hide I.CoveredBy;
    while todo != {}
      invariant todo <= i.Keys
      invariant forall c :: c in out <==> c in i && c !in todo && !I.CoveredBy(i[c], c, seen)
      invariant forall c :: c in out ==> out[c] == i[c]
    {
      var c :| c in todo;
      var covered := C.DecideCovered(i[c], I.Records(seen, c));
      CoveredIs(i[c], c, seen);
      if !covered {
        out := out[c := i[c]];
      }
      todo := todo - {c};
    }
    assert out == map c | c in i && !I.CoveredBy(i[c], c, seen) :: i[c];
  }

  lemma CoveredIs(e: I.RawEntry, c: Channel, seen: seq<Interest>)
    ensures I.CoveredBy(e, c, seen) <==> I.Covered(e, I.Records(seen, c))
  {
  }

  /** `any_uncovered_by`. */
  method AnyUncovered(i: Interest, seen: seq<Interest>) returns (any: bool)
    ensures any <==> I.AnyUncoveredBy(i, seen)
  {
    var todo := i.Keys;
    hide I.CoveredBy;
    while todo != {}
      invariant todo <= i.Keys
      invariant forall c :: c in i && c !in todo ==> I.CoveredBy(i[c], c, seen)
    {
      var c :| c in todo;
      var covered := C.DecideCovered(i[c], I.Records(seen, c));
      CoveredIs(i[c], c, seen);
      if !covered {
        return true;
      }
      todo := todo - {c};
    }
    return false;
  }

  method NextWantOf(s: State) returns (out: Interest)
    ensures out == NextWant(s)
  {
    out := Uncovered(MyInterest(s), SeenInterests(s.seen));
  }

  /** `recent_haves`: the union over the records, in whatever order. */
  method Recent(haves: map<NodeId, Record>) returns (out: LR.LogRanges)
    ensures out == RecentHaves(haves)
  {
    out := LR.EMPTY;
    var todo := haves.Keys;
    hide LR.Has, LR.Known, LR.Union;
    NothingThere();
    while todo != {}
      invariant todo <= haves.Keys
      invariant forall k :: LR.Has(out, k) <==> exists n :: n in haves && n !in todo && LR.Has(haves[n].ranges, k)
      invariant forall log :: LR.Known(out, log) <==> exists n :: n in haves && n !in todo && LR.Known(haves[n].ranges, log)
    {
      var n :| n in todo;
      out := LR.Union(out, haves[n].ranges);
      todo := todo - {n};
    }
    LR.KnownCanonical(out, RecentHaves(haves));
  }

  lemma NothingThere()
    ensures forall k :: !LR.Has(LR.EMPTY, k)
    ensures forall log :: !LR.Known(LR.EMPTY, log)
  {
    LR.EmptyHasNothing(LR.EMPTY);
  }

  method NextHaveOf(s: State) returns (out: LR.LogRanges)
    ensures out == NextHave(s)
  {
    var recent := Recent(s.haves);
    out := LR.Difference(NetworkAsk(s), recent);
  }

  method FireWantOn(cfg: Config, s0: State) returns (s: State, fx: seq<Effect>)
    ensures (s, fx) == FiredWant(cfg, s0)
  {
    s, fx := s0.(wantTimer := R.None), [];
    var out := NextWantOf(s0);
    if out != map[] {
      s := s.(seen := s.seen + [SeenWant(out, cfg.wantTtl)]);
      fx := [SendWant(out)];
    }
  }

  method FireHaveOn(cfg: Config, s0: State) returns (s: State, fx: seq<Effect>)
    ensures (s, fx) == FiredHave(cfg, s0)
  {
    hide LR.IsEmpty, NextHave;
    s, fx := s0.(haveTimer := R.None), [];
    var ranges := NextHaveOf(s0);
    if !LR.IsEmpty(ranges) {
      s := s.(haves := s.haves[s.id := Record(ranges, cfg.haveTtl)],
              relayed := s.relayed + [Record(ranges, cfg.haveTtl)]);
      fx := [SendHave(ranges)];
    }
  }

  method PushOn(cfg: Config, s0: State, ranges: LR.LogRanges) returns (s: State, fx: seq<Effect>)
    ensures (s, fx) == Pushed(cfg, s0, ranges)
  {
    hide LR.IsEmpty, LR.Union, LR.Difference;
    s, fx := s0.(held := LR.Union(s0.held, ranges)), [];
    var relay := LR.Difference(ranges, RelayedRanges(s0.relayed));
    if !LR.IsEmpty(relay) {
      s := s.(haves := s.haves[s.id := Record(relay, cfg.haveTtl)],
              relayed := s.relayed + [Record(relay, cfg.haveTtl)]);
      fx := [SendHave(relay)];
    }
  }

  method AdoptHeard(cfg: Config, s: State, interest: Interest) returns (heard: map<Channel, Time>)
    ensures heard == s.heard + (map c | c in Adopted(cfg, s, interest) :: cfg.heardTtl)
  {
    hide I.HoldsUnder, I.IsPure;
    heard := s.heard;
    var todo := interest.Keys;
    ghost var adopted := Adopted(cfg, s, interest);
    while todo != {}
      invariant todo <= interest.Keys
      invariant forall c :: c in heard <==> c in s.heard || (c in adopted && c !in todo)
      invariant forall c :: c in heard ==> heard[c] == if c in adopted && c !in todo then cfg.heardTtl else s.heard[c]
    {
      var c :| c in todo;
      if !I.IsPure(interest[c]) && !I.HoldsUnder(s.held, c) {
        heard := heard[c := cfg.heardTtl];
      }
      todo := todo - {c};
    }
    assert adopted <= interest.Keys;
    assert heard == s.heard + (map c | c in adopted :: cfg.heardTtl);
  }

  method RecvWantOn(cfg: Config, s0: State, interest: Interest) returns (s: State, fx: seq<Effect>)
    ensures (s, fx) == ReceivedWant(cfg, s0, interest)
  {
    hide I.AnyUncoveredBy;
    s, fx := s0, [];
    var any := AnyUncovered(interest, SeenInterests(s.seen));
    if any {
      fx := [SendWant(interest)];
    }
    var heard := AdoptHeard(cfg, s, interest);
    s := s.(heard := heard, seen := s.seen + [SeenWant(interest, cfg.wantTtl)]);
  }

  method RecvHaveOn(cfg: Config, s0: State, from: NodeId, ranges: LR.LogRanges) returns (s: State, fx: seq<Effect>)
    ensures (s, fx) == ReceivedHave(cfg, s0, from, ranges)
  {
    hide LR.IsEmpty, LR.Union, LR.Difference;
    s, fx := s0, [];
    var novel := LR.Difference(ranges, s.held);
    if !LR.IsEmpty(novel) {
      s := s.(held := LR.Union(s.held, novel));
      fx := fx + [Accept(novel)];
    }
    var relay := LR.Difference(ranges, RelayedRanges(s.relayed));
    if !LR.IsEmpty(relay) {
      s := s.(relayed := s.relayed + [Record(relay, cfg.haveTtl)]);
      fx := fx + [SendHave(relay)];
    }
    s := s.(haves := s.haves[from := Record(ranges, cfg.haveTtl)]);
    var accept: seq<Effect> := if LR.IsEmpty(novel) then [] else [Accept(novel)];
    var send: seq<Effect> := if LR.IsEmpty(relay) then [] else [SendHave(relay)];
    assert fx == accept + send;
  }

  /** `RouterMachine::transition`: refuses exactly what `Step` refuses, and otherwise does what it says. */
  method Transition(cfg: Config, s0: State, a: Action) returns (r: Option<(State, seq<Effect>)>)
    ensures r == Step(cfg, s0, a)
  {
    hide FiredWant, FiredHave, Pushed, ReceivedWant, ReceivedHave, LR.IsEmpty, NetworkAsk, Ticked;
    var s, fx: seq<Effect> := s0, [];
    match a {
      case Tick(d) =>
        if !MayTick(s, d) { return R.None; }
        s := Ticked(s, d);
      case ArmWantTimer(t) =>
        if s.wantTimer.Some? { return R.None; }
        s := s.(wantTimer := R.Some(t));
      case ArmHaveTimer(t) =>
        if s.haveTimer.Some? || LR.IsEmpty(NetworkAsk(s)) { return R.None; }
        s := s.(haveTimer := R.Some(t));
      case FireWant =>
        if !WantDue(s) { return R.None; }
        s, fx := FireWantOn(cfg, s);
      case FireHave =>
        if !HaveDue(s) { return R.None; }
        s, fx := FireHaveOn(cfg, s);
      case Open(channels) =>
        s := s.(openChannels := channels);
      case RecvWant(from, interest) =>
        if from == s.id { return R.None; }
        s, fx := RecvWantOn(cfg, s, interest);
      case RecvHave(from, ranges) =>
        if from == s.id { return R.None; }
        s, fx := RecvHaveOn(cfg, s, from, ranges);
      case Held(ranges) =>
        s := s.(held := ranges);
      case Push(ranges) =>
        if LR.IsEmpty(ranges) { return R.None; }
        s, fx := PushOn(cfg, s, ranges);
    }
    return R.Some((s, fx));
  }
}

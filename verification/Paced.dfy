/** The node machine with authoring in two steps: an append takes effect at once, its push is flushed later. Running
    the shell's clock is a run of this machine. */
module Paced {
  import R = Ranges
  import opened Logs
  import LR = LogRanges
  import Rt = Router
  import Clocks
  import Node
  import NI = NodeInvariant
  import NM = NodeMachine
  import opened Storage

  /** An action of the node machine, or the push of everything appended since the last one. */
  datatype Move = Act(action: Node.Action) | Flush

  datatype State = State(node: Node.State, pending: LR.LogRanges)

  type Result = R.Option<(State, seq<Node.Effect>)>

  ghost function PendingAfter(pending: LR.LogRanges, a: Node.Action): LR.LogRanges {
    if a.NativeSync? then LR.Union(pending, LR.Singleton(a.key)) else pending
  }

  ghost function Moved(q: R.Option<(Node.State, seq<Node.Effect>)>, pending: LR.LogRanges): Result {
    if q.None? then R.None else R.Some((State(q.value.0, pending), q.value.1))
  }

  /** One move; `None` where the node machine refuses it. A flush with nothing pending does nothing. */
  ghost function Step(m: Node.Machine, p: State, mv: Move): Result {
    match mv
    case Act(a) => Moved(Node.Step(m, p.node, a), PendingAfter(p.pending, a))
    case Flush =>
      if LR.IsEmpty(p.pending) then R.Some((p.(pending := LR.EMPTY), []))
      else Moved(Node.PushRanges(m, p.node, p.pending), LR.EMPTY)
  }

  ghost function After(fx: seq<Node.Effect>, r: Result): Result {
    if r.None? then R.None else R.Some((r.value.0, fx + r.value.1))
  }

  ghost function Run(m: Node.Machine, p: State, moves: seq<Move>): Result
    decreases |moves|
  {
    if moves == [] then R.Some((p, []))
    else
      var q := Step(m, p, moves[0]);
      if q.None? then R.None else After(q.value.1, Run(m, q.value.0, moves[1..]))
  }

  /** Every one of the moves is allowed, and together they lead to `p'` and put out `fx`. */
  ghost predicate Runs(m: Node.Machine, p: State, moves: seq<Move>, p': State, fx: seq<Node.Effect>) {
    Run(m, p, moves) == R.Some((p', fx))
  }

  lemma RunsOne(m: Node.Machine, p: State, mv: Move, p': State, fx: seq<Node.Effect>)
    requires Step(m, p, mv) == R.Some((p', fx))
    ensures Runs(m, p, [mv], p', fx)
  {
    hide Step;
    assert [mv][1..] == [] && fx + [] == fx;
    assert Run(m, p, [mv]) == After(fx, Run(m, p', []));
  }

  lemma {:induction false} RunsOn(m: Node.Machine, p: State, a: seq<Move>, mid: State, fx: seq<Node.Effect>, b: seq<Move>,
                                  p': State, fx': seq<Node.Effect>)
    requires Runs(m, p, a, mid, fx) && Runs(m, mid, b, p', fx')
    ensures Runs(m, p, a + b, p', fx + fx')
    decreases |a|
  {
    hide Step;
    if a == [] {
      assert a + b == b && fx + fx' == fx';
    } else {
      var q := Step(m, p, a[0]).value;
      var rest := Run(m, q.0, a[1..]).value;
      RunsOn(m, q.0, a[1..], mid, rest.1, b, p', fx');
      assert (a + b)[0] == a[0] && (a + b)[1..] == a[1..] + b;
      assert (q.1 + rest.1) + fx' == q.1 + (rest.1 + fx');
    }
  }

  // ---- What moves are of ----

  /** Done on behalf of somebody: a message, a local append, a change of subscriptions. */
  predicate IsInput(mv: Move) {
    mv.Act? && !mv.action.Router? && !mv.action.RelayEvict? && !mv.action.RelayEvictPayloads?
  }

  function Inputs(moves: seq<Move>): seq<Node.Action> {
    if moves == [] then []
    else (if IsInput(moves[0]) then [moves[0].action] else []) + Inputs(moves[1..])
  }

  lemma {:induction false} InputsConcat(a: seq<Move>, b: seq<Move>)
    ensures Inputs(a + b) == Inputs(a) + Inputs(b)
  {
    hide Inputs;
    NoMoves();
    if a == [] {
      assert a + b == b;
      assert [] + Inputs(b) == Inputs(b);
    } else {
      var first := if IsInput(a[0]) then [a[0].action] else [];
      InputsConcat(a[1..], b);
      InputsFirst(a);
      assert (a + b)[0] == a[0] && (a + b)[1..] == a[1..] + b;
      InputsFirst(a + b);
      assert first + (Inputs(a[1..]) + Inputs(b)) == (first + Inputs(a[1..])) + Inputs(b);
    }
  }

  lemma InputsFirst(a: seq<Move>)
    requires a != []
    ensures Inputs(a) == (if IsInput(a[0]) then [a[0].action] else []) + Inputs(a[1..])
  {
  }

  predicate IsTick(mv: Move) {
    mv.Act? && mv.action.Router? && mv.action.action.Tick?
  }

  /** The time that passes over some moves. */
  function Elapsed(moves: seq<Move>): Time {
    if moves == [] then 0
    else (if IsTick(moves[0]) then moves[0].action.action.dur else 0) + Elapsed(moves[1..])
  }

  lemma {:induction false} ElapsedConcat(a: seq<Move>, b: seq<Move>)
    ensures Elapsed(a + b) == Elapsed(a) + Elapsed(b)
  {
    if a == [] {
      assert a + b == b;
    } else {
      assert (a + b)[0] == a[0] && (a + b)[1..] == a[1..] + b;
      ElapsedConcat(a[1..], b);
    }
  }

  // ---- What is pending ----

  /** Whether `k` was appended and not flushed since; `was` says whether it was pending at the start. */
  function Awaits(moves: seq<Move>, k: Key, was: bool): bool {
    if moves == [] then was
    else
      var first := moves[0];
      Awaits(moves[1..], k, !first.Flush? && (was || (first.action.NativeSync? && first.action.key == k)))
  }

  /** Over any run, what is pending is exactly what was appended since the last flush. */
  lemma {:induction false} PendingIsUnflushed(m: Node.Machine, p: State, moves: seq<Move>, k: Key)
    requires Run(m, p, moves).Some?
    ensures LR.Has(Run(m, p, moves).value.0.pending, k) <==> Awaits(moves, k, LR.Has(p.pending, k))
    decreases |moves|
  {
    hide LR.Has, Step, LR.Union, LR.Singleton, LR.IsEmpty;
    if moves != [] {
      PendingStep(m, p, moves[0], k);
      PendingIsUnflushed(m, Step(m, p, moves[0]).value.0, moves[1..], k);
    }
  }

  lemma PendingStep(m: Node.Machine, p: State, mv: Move, k: Key)
    requires Step(m, p, mv).Some?
    ensures LR.Has(Step(m, p, mv).value.0.pending, k)
            <==> !mv.Flush? && (LR.Has(p.pending, k) || (mv.action.NativeSync? && mv.action.key == k))
  {
    hide LR.Has, Node.Step, Node.PushRanges, LR.IsEmpty;
    Clocks.NothingPending();
  }

  /** An append whose push is flushed next has done what `Authored` does in one step. */
  lemma FlushedAppendIsAuthored(m: Node.Machine, n: Node.State, k: Key, op: Op)
    ensures Run(m, State(n, LR.EMPTY), [Act(Node.NativeSync(k, op)), Flush])
         == Moved(Node.Step(m, n, Node.Authored(k, op)), LR.EMPTY)
  {
    hide Rt.Step, Node.Routed, Node.IngestedExt, LR.Singleton, LR.Union, LR.IsEmpty;
    var p := State(n, LR.EMPTY);
    var mid := State(Node.IngestedExt(n, k, op), LR.Union(LR.EMPTY, LR.Singleton(k)));
    assert Step(m, p, Act(Node.NativeSync(k, op))) == R.Some((mid, []));
    JoinedAlone(k);
    var moves := [Act(Node.NativeSync(k, op)), Flush];
    assert moves[1..] == [Flush] && [Flush][1..] == [];
    var q := Step(m, mid, Flush);
    if q.Some? {
      RunsOne(m, mid, Flush, q.value.0, q.value.1);
      assert [] + q.value.1 == q.value.1;
    }
  }

  lemma JoinedAlone(k: Key)
    ensures LR.Union(LR.EMPTY, LR.Singleton(k)) == LR.Singleton(k) && !LR.IsEmpty(LR.Singleton(k))
  {
    hide LR.Has, LR.Union, LR.Singleton, LR.IsEmpty;
    SingletonClean(k);
    Clocks.NothingPending();
    LR.UnionClean(LR.EMPTY, LR.Singleton(k));
    LR.CleanCanonical(LR.Union(LR.EMPTY, LR.Singleton(k)), LR.Singleton(k));
    LR.EmptyHasNothing(LR.Singleton(k));
    assert LR.Has(LR.Singleton(k), k);
  }

  lemma SingletonClean(k: Key)
    ensures LR.Clean(LR.Singleton(k)) && forall x :: LR.Has(LR.Singleton(k), x) <==> x == k
  {
    hide LR.Has;
  }

  // ---- The node invariant, pushes put off or not ----

  /** What is pending is in the application's store. */
  ghost predicate PendingStored(pending: LR.LogRanges, ext: OpsMap) {
    LR.Clean(pending) && forall k :: LR.Has(pending, k) ==> k in ext
  }

  ghost predicate Inv(m: Node.Machine, p: State) {
    NI.Inv(m, p.node) && PendingStored(p.pending, p.node.ext)
  }

  lemma PendingStays(pending: LR.LogRanges, ext: OpsMap, ext': OpsMap)
    requires ext.Keys <= ext'.Keys
    ensures PendingStored(pending, ext) ==> PendingStored(pending, ext')
  {
    hide LR.Has, LR.Clean;
  }

  lemma PendingGrows(pending: LR.LogRanges, k: Key, ext: OpsMap, ext': OpsMap)
    requires ext.Keys <= ext'.Keys && k in ext'
    ensures PendingStored(pending, ext) ==> PendingStored(LR.Union(pending, LR.Singleton(k)), ext')
  {
    hide LR.Has, LR.Union, LR.Singleton, LR.Clean;
    if LR.Clean(pending) {
      SingletonClean(k);
      LR.UnionClean(pending, LR.Singleton(k));
    }
  }

  /** No action but the application's own garbage collection takes anything out of its store. */
  lemma ExtGrows(m: Node.Machine, n: Node.State, a: Node.Action)
    requires Node.Step(m, n, a).Some? && !a.AppGc?
    ensures n.ext.Keys <= Node.Step(m, n, a).value.0.ext.Keys
    ensures a.NativeSync? ==> a.key in Node.Step(m, n, a).value.0.ext
  {
    hide Rt.Step, Node.HeldUnion, Node.Route, Node.IngestAll, LR.OfKeys, SortedKeys;
    if a.Recv? && a.message.body.Have? {
      var parked := a.message.body.ops;
      NI.IngestAllFacts(m.cap, n.subs, Node.Stores(n.relay, n.ext), SortedKeys(parked.Keys), parked);
    }
  }

  lemma StepKeepsInv(m: Node.Machine, p: State, mv: Move)
    requires Inv(m, p) && Step(m, p, mv).Some? && !(mv.Act? && mv.action.AppGc?)
    ensures Inv(m, Step(m, p, mv).value.0)
  {
    hide NI.Inv, Node.Step, LR.Has, LR.Clean, LR.Union, LR.Singleton, Rt.Step, Node.Route, LR.IsEmpty;
    if mv.Act? {
      NI.StepKeepsInv(m, p.node, mv.action);
      ExtGrows(m, p.node, mv.action);
      var n' := Node.Step(m, p.node, mv.action).value.0;
      PendingStays(p.pending, p.node.ext, n'.ext);
      if mv.action.NativeSync? {
        PendingGrows(p.pending, mv.action.key, p.node.ext, n'.ext);
      }
    } else {
      Clocks.NothingPending();
      if !LR.IsEmpty(p.pending) {
        NI.RoutedKeepsInv(m, p.node, Rt.Push(p.pending));
      }
    }
  }

  /** Every run keeps the node invariant, as long as the application's store is not collected under it. */
  lemma {:induction false} RunKeepsInv(m: Node.Machine, p: State, moves: seq<Move>)
    requires Inv(m, p) && Run(m, p, moves).Some?
    requires forall a :: a in Inputs(moves) ==> !a.AppGc?
    ensures Inv(m, Run(m, p, moves).value.0)
    decreases |moves|
  {
    hide Step, Inv;
    if moves != [] {
      StepKeepsInv(m, p, moves[0]);
      RunKeepsInv(m, Step(m, p, moves[0]).value.0, moves[1..]);
    }
  }

  // ---- The clock's moves ----

  function Own(a: Rt.Action): Move {
    Act(Node.Router(a))
  }

  ghost function FireMoves(cfg: Clocks.Config, cl: Clocks.Clock): seq<Move> {
    if Clocks.PushDue(cfg, cl) then [Flush]
    else if Rt.WantDue(cl.router) then [Own(Rt.FireWant), Own(Rt.ArmWantTimer(cfg.wantInterval(cl.wantsDrawn)))]
    else if LR.IsEmpty(Rt.NetworkAsk(Rt.FiredHave(cfg.router, cl.router).0)) then [Own(Rt.FireHave)]
    else [Own(Rt.FireHave), Own(Rt.ArmHaveTimer(cfg.haveInterval(cl.havesDrawn)))]
  }

  /** What advancing takes the machine through: ticks, fires, re-arms and flushes. */
  ghost function AdvanceMoves(cfg: Clocks.Config, cl: Clocks.Clock, target: Time): seq<Move>
    requires Clocks.Positive(cfg)
    decreases Clocks.Ahead(cl, target), Clocks.DueCount(cfg, cl)
  {
    if Clocks.Due(cfg, cl) then
      Clocks.FiringProgresses(cfg, cl);
      FireMoves(cfg, cl) + AdvanceMoves(cfg, Clocks.FireOne(cfg, cl).0, target)
    else if target <= cl.now then []
    else
      Clocks.TickAllowed(cfg, cl, target);
      var d := Clocks.TickLength(cfg, cl, target);
      [Own(Rt.Tick(d))] + AdvanceMoves(cfg, Clocks.TickedBy(cl, d), target)
  }

  /** Where a node is when its clock stands at `cl`. */
  function At(n: Node.State, cl: Clocks.Clock): State {
    State(n.(router := cl.router), cl.pending)
  }

  ghost predicate Fires(m: Node.Machine, n: Node.State, cl: Clocks.Clock, moves: seq<Move>, cl': Clocks.Clock,
                        fx: seq<Rt.Effect>)
  {
    Runs(m, At(n, cl), moves, At(n, cl'), Node.Route(n, fx, map[]))
  }

  /** One action of the router, taken by the whole node. */
  lemma OwnStep(m: Node.Machine, n: Node.State, pending: LR.LogRanges, a: Rt.Action, s': Rt.State, fx: seq<Rt.Effect>)
    requires Node.Direct(a) && Rt.Step(m.router, n.router, a) == R.Some((s', fx)) && s'.id == n.router.id
    ensures Step(m, State(n, pending), Own(a)) == R.Some((State(n.(router := s'), pending), Node.Route(n, fx, map[])))
  {
    hide Rt.Step, Node.Route;
    NM.RouteSame(n.(router := s'), n, fx, map[]);
  }

  lemma FlushRuns(cfg: Clocks.Config, m: Node.Machine, n: Node.State, cl: Clocks.Clock)
    requires m.router == cfg.router && n.router.id == cl.router.id
    ensures var p := Clocks.FlushPush(cfg, cl);
            Fires(m, n, cl, [Flush], p.0, p.1)
  {
    hide Rt.Step, Node.RouteOne, LR.IsEmpty, Rt.Pushed;
    Clocks.FlushFrame(cfg, cl);
    var p := Clocks.FlushPush(cfg, cl);
    if !LR.IsEmpty(cl.pending) {
      Clocks.FlushIsPush(cfg, cl);
      NM.RouteSame(n.(router := p.0.router), n, p.1, map[]);
    }
    RunsOne(m, At(n, cl), Flush, At(n, p.0), Node.Route(n, p.1, map[]));
  }

  lemma WantRuns(cfg: Clocks.Config, m: Node.Machine, n: Node.State, cl: Clocks.Clock)
    requires m.router == cfg.router && n.router.id == cl.router.id && Rt.WantDue(cl.router)
    ensures var p := Clocks.FireWant(cfg, cl);
            Fires(m, n, cl, [Own(Rt.FireWant), Own(Rt.ArmWantTimer(cfg.wantInterval(cl.wantsDrawn)))], p.0, p.1)
  {
    hide Rt.Step, Node.Route, Step, Rt.WantDue, Rt.FiredWant;
    Clocks.WantFrame(cfg, cl);
    Clocks.FireWantSteps(cfg, cl);
    FiredWantId(cfg.router, cl.router);
    TwoOwn(m, n, cl, Rt.FireWant, Rt.FiredWant(cfg.router, cl.router).0, Rt.ArmWantTimer(cfg.wantInterval(cl.wantsDrawn)),
           Clocks.FireWant(cfg, cl).0, Clocks.FireWant(cfg, cl).1);
  }

  lemma FiredWantId(cfg: Rt.Config, s: Rt.State)
    ensures Rt.FiredWant(cfg, s).0.id == s.id
  {
    hide Rt.NextWant;
  }

  lemma FiredHaveId(cfg: Rt.Config, s: Rt.State)
    ensures Rt.FiredHave(cfg, s).0.id == s.id
  {
    hide Rt.NextHave, LR.IsEmpty;
  }

  /** A fire followed by its re-arm. */
  lemma TwoOwn(m: Node.Machine, n: Node.State, cl: Clocks.Clock, fire: Rt.Action, mid: Rt.State, arm: Rt.Action,
               cl': Clocks.Clock, fx: seq<Rt.Effect>)
    requires Node.Direct(fire) && Node.Direct(arm) && n.router.id == cl.router.id
    requires Rt.Step(m.router, cl.router, fire) == R.Some((mid, fx)) && mid.id == cl.router.id
    requires Rt.Step(m.router, mid, arm) == R.Some((cl'.router, [])) && cl'.router.id == mid.id
    requires cl'.pending == cl.pending
    ensures Fires(m, n, cl, [Own(fire), Own(arm)], cl', fx)
  {
    hide Rt.Step, Node.RouteOne, Step, Run;
    var n1, n2 := n.(router := cl.router), n.(router := mid);
    OwnStep(m, n1, cl.pending, fire, mid, fx);
    OwnStep(m, n2, cl.pending, arm, cl'.router, []);
    NM.RouteSame(n1, n, fx, map[]);
    RunsOne(m, At(n, cl), Own(fire), State(n2, cl.pending), Node.Route(n, fx, map[]));
    RunsOne(m, State(n2, cl.pending), Own(arm), At(n, cl'), []);
    RunsOn(m, At(n, cl), [Own(fire)], State(n2, cl.pending), Node.Route(n, fx, map[]), [Own(arm)], At(n, cl'), []);
    assert [Own(fire)] + [Own(arm)] == [Own(fire), Own(arm)];
    assert Node.Route(n, fx, map[]) + [] == Node.Route(n, fx, map[]);
  }

  lemma HaveRuns(cfg: Clocks.Config, m: Node.Machine, n: Node.State, cl: Clocks.Clock)
    requires m.router == cfg.router && n.router.id == cl.router.id && Rt.HaveDue(cl.router)
    requires !Clocks.PushDue(cfg, cl) && !Rt.WantDue(cl.router)
    ensures var p := Clocks.FireHave(cfg, cl);
            Fires(m, n, cl, FireMoves(cfg, cl), p.0, p.1)
  {
    hide Rt.Step, Node.RouteOne, Step, Rt.WantDue, Rt.HaveDue, Rt.FiredHave, LR.IsEmpty, Rt.NetworkAsk, Clocks.PushDue,
         Run;
    Clocks.HaveFrame(cfg, cl);
    Clocks.FireHaveSteps(cfg, cl);
    FiredHaveId(cfg.router, cl.router);
    var p, cl' := Rt.FiredHave(cfg.router, cl.router), Clocks.FireHave(cfg, cl).0;
    if LR.IsEmpty(Rt.NetworkAsk(p.0)) {
      OwnStep(m, n.(router := cl.router), cl.pending, Rt.FireHave, p.0, p.1);
      NM.RouteSame(n.(router := cl.router), n, p.1, map[]);
      RunsOne(m, At(n, cl), Own(Rt.FireHave), At(n, cl'), Node.Route(n, p.1, map[]));
    } else {
      TwoOwn(m, n, cl, Rt.FireHave, p.0, Rt.ArmHaveTimer(cfg.haveInterval(cl.havesDrawn)), cl', p.1);
    }
  }

  lemma FireRuns(cfg: Clocks.Config, m: Node.Machine, n: Node.State, cl: Clocks.Clock)
    requires m.router == cfg.router && n.router.id == cl.router.id && Clocks.Due(cfg, cl)
    ensures var p := Clocks.FireOne(cfg, cl);
            Fires(m, n, cl, FireMoves(cfg, cl), p.0, p.1)
  {
    hide Fires, Clocks.FireWant, Clocks.FireHave, Clocks.FlushPush, Clocks.PushDue, Rt.WantDue, Rt.HaveDue, LR.IsEmpty,
         Rt.NetworkAsk;
    if Clocks.PushDue(cfg, cl) {
      FlushRuns(cfg, m, n, cl);
    } else if Rt.WantDue(cl.router) {
      WantRuns(cfg, m, n, cl);
    } else {
      HaveRuns(cfg, m, n, cl);
    }
  }

  lemma TickRuns(m: Node.Machine, n: Node.State, cl: Clocks.Clock, d: Time)
    requires n.router.id == cl.router.id && Rt.MayTick(cl.router, d)
    ensures Fires(m, n, cl, [Own(Rt.Tick(d))], Clocks.TickedBy(cl, d), [])
  {
    hide Rt.MayTick, Rt.AgeRecords, Rt.AgeSeen, Rt.AgeHaves, Rt.AgeHeard, Step;
    var cl' := Clocks.TickedBy(cl, d);
    OwnStep(m, n.(router := cl.router), cl.pending, Rt.Tick(d), cl'.router, []);
    RunsOne(m, At(n, cl), Own(Rt.Tick(d)), At(n, cl'), []);
  }

  lemma FiresOn(m: Node.Machine, n: Node.State, cl: Clocks.Clock, a: seq<Move>, mid: Clocks.Clock, fx: seq<Rt.Effect>,
                b: seq<Move>, cl': Clocks.Clock, fx': seq<Rt.Effect>)
    requires Fires(m, n, cl, a, mid, fx) && Fires(m, n, mid, b, cl', fx')
    ensures Fires(m, n, cl, a + b, cl', fx + fx')
  {
    hide Run, Node.Route;
    RunsOn(m, At(n, cl), a, At(n, mid), Node.Route(n, fx, map[]), b, At(n, cl'), Node.Route(n, fx', map[]));
    NM.RouteConcat(n, fx, fx', map[]);
  }

  /** Advancing the clock is a run of the machine: each move is allowed, it ends in the clock's router with what the
      clock has pending, and it puts out what the clock's decisions are routed to. */
  lemma {:induction false} AdvanceRuns(cfg: Clocks.Config, m: Node.Machine, n: Node.State, cl: Clocks.Clock, target: Time)
    requires m.router == cfg.router && n.router.id == cl.router.id && Clocks.Positive(cfg)
    ensures var p := Clocks.Advance(cfg, cl, target);
            Fires(m, n, cl, AdvanceMoves(cfg, cl, target), p.0, p.1)
    decreases Clocks.Ahead(cl, target), Clocks.DueCount(cfg, cl)
  {
    hide Fires, Clocks.Due, Clocks.FireOne, Clocks.DueCount, Clocks.TickLength, Rt.Ticked, Rt.MayTick, FireMoves,
         Clocks.Positive;
    if Clocks.Due(cfg, cl) {
      Clocks.FiringProgresses(cfg, cl);
      Clocks.FireFrame(cfg, cl);
      var p := Clocks.FireOne(cfg, cl);
      FireRuns(cfg, m, n, cl);
      AdvanceRuns(cfg, m, n, p.0, target);
      var rest := Clocks.Advance(cfg, p.0, target);
      FiresOn(m, n, cl, FireMoves(cfg, cl), p.0, p.1, AdvanceMoves(cfg, p.0, target), rest.0, rest.1);
    } else if target <= cl.now {
      FiresNone(m, n, cl);
    } else {
      Clocks.TickAllowed(cfg, cl, target);
      var d := Clocks.TickLength(cfg, cl, target);
      var mid := Clocks.TickedBy(cl, d);
      Clocks.TickFrame(cl, d);
      TickRuns(m, n, cl, d);
      AdvanceRuns(cfg, m, n, mid, target);
      var rest := Clocks.Advance(cfg, mid, target);
      FiresOn(m, n, cl, [Own(Rt.Tick(d))], mid, [], AdvanceMoves(cfg, mid, target), rest.0, rest.1);
      assert [] + rest.1 == rest.1;
    }
  }

  lemma FiresNone(m: Node.Machine, n: Node.State, cl: Clocks.Clock)
    ensures Fires(m, n, cl, [], cl, [])
  {
  }

  /** It does nothing on anyone else's behalf, and its ticks add up to the time that passes. */
  lemma {:induction false} AdvanceIsOwn(cfg: Clocks.Config, cl: Clocks.Clock, target: Time)
    requires Clocks.Positive(cfg)
    ensures Inputs(AdvanceMoves(cfg, cl, target)) == []
    ensures Elapsed(AdvanceMoves(cfg, cl, target)) == Clocks.Ahead(cl, target)
    decreases Clocks.Ahead(cl, target), Clocks.DueCount(cfg, cl)
  {
    hide Clocks.Due, Clocks.FireOne, Clocks.DueCount, Clocks.TickLength, Rt.Ticked, Rt.MayTick, FireMoves,
         Clocks.Positive, Inputs, Elapsed;
    NoMoves();
    if Clocks.Due(cfg, cl) {
      Clocks.FiringProgresses(cfg, cl);
      var rest := AdvanceMoves(cfg, Clocks.FireOne(cfg, cl).0, target);
      FireIsOwn(cfg, cl);
      AdvanceIsOwn(cfg, Clocks.FireOne(cfg, cl).0, target);
      InputsConcat(FireMoves(cfg, cl), rest);
      ElapsedConcat(FireMoves(cfg, cl), rest);
    } else if cl.now < target {
      Clocks.TickAllowed(cfg, cl, target);
      var d := Clocks.TickLength(cfg, cl, target);
      TickIsOwn(d);
      AdvanceIsOwn(cfg, Clocks.TickedBy(cl, d), target);
      InputsConcat([Own(Rt.Tick(d))], AdvanceMoves(cfg, Clocks.TickedBy(cl, d), target));
      ElapsedConcat([Own(Rt.Tick(d))], AdvanceMoves(cfg, Clocks.TickedBy(cl, d), target));
    }
  }

  lemma NoMoves()
    ensures Inputs([]) == [] && Elapsed([]) == 0
  {
  }

  lemma TickIsOwn(d: Time)
    ensures Inputs([Own(Rt.Tick(d))]) == [] && Elapsed([Own(Rt.Tick(d))]) == d
  {
    assert [Own(Rt.Tick(d))][1..] == [];
  }

  lemma FireIsOwn(cfg: Clocks.Config, cl: Clocks.Clock)
    ensures Inputs(FireMoves(cfg, cl)) == [] && Elapsed(FireMoves(cfg, cl)) == 0
  {
    hide Clocks.PushDue, LR.IsEmpty, Rt.NetworkAsk, Rt.FiredHave, Rt.WantDue;
    OwnOnly(Flush, Flush);
    OwnOnly(Own(Rt.FireWant), Own(Rt.ArmWantTimer(cfg.wantInterval(cl.wantsDrawn))));
    OwnOnly(Own(Rt.FireHave), Own(Rt.ArmHaveTimer(cfg.haveInterval(cl.havesDrawn))));
  }

  lemma OwnOnly(a: Move, b: Move)
    requires !IsInput(a) && !IsInput(b) && !IsTick(a) && !IsTick(b)
    ensures Inputs([a]) == [] && Inputs([a, b]) == [] && Elapsed([a]) == 0 && Elapsed([a, b]) == 0
  {
    assert [a, b][1..] == [b] && [a][1..] == [] && [b][1..] == [];
  }
}

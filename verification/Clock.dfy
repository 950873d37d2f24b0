/** The shell's tick-and-fire engine: what advancing a node to an instant does. */
module Clocks {
  import R = Ranges
  import opened Logs
  import LR = LogRanges
  import Rt = Router

  type LogRanges = LR.LogRanges
  type Option<T> = R.Option<T>

  /** Timer intervals are drawn in order from two scripts; all are positive. */
  datatype Config = Config(router: Rt.Config, window: Time, maxLatency: Time, wantInterval: nat -> Time,
                           haveInterval: nat -> Time)

  ghost predicate Positive(cfg: Config) {
    (forall n: nat :: 0 < cfg.wantInterval(n)) && (forall n: nat :: 0 < cfg.haveInterval(n))
  }

  datatype Clock = Clock(router: Rt.State, now: Time, pending: LogRanges, since: Option<Time>, latest: Time,
                         wantsDrawn: nat, havesDrawn: nat)

  // ---- What is due ----

  /** When to flush pending appends: a quiet window after the latest, at most a cap after the oldest. */
  function Deadline(cfg: Config, oldest: Time, latest: Time): Time {
    var quiet, cap := latest + cfg.window, oldest + cfg.maxLatency;
    if quiet <= cap then quiet else cap
  }

  function PushDeadline(cfg: Config, cl: Clock): Option<Time> {
    if cl.since.Some? then R.Some(Deadline(cfg, cl.since.value, cl.latest)) else R.None
  }

  predicate PushDue(cfg: Config, cl: Clock) {
    cl.since.Some? && Deadline(cfg, cl.since.value, cl.latest) <= cl.now
  }

  predicate Due(cfg: Config, cl: Clock) {
    PushDue(cfg, cl) || Rt.WantDue(cl.router) || Rt.HaveDue(cl.router)
  }

  function Earlier(a: Option<Time>, b: Option<Time>): Option<Time> {
    match (a, b)
    case (Some(x), Some(y)) => R.Some(if x <= y then x else y)
    case (Some(x), None) => a
    case (None, _) => b
  }

  /** The next instant with something to do. */
  function NextDeadline(cfg: Config, cl: Clock): Option<Time> {
    var due := Rt.NextDue(cl.router);
    Earlier(if due.Some? then R.Some(cl.now + due.value) else R.None, PushDeadline(cfg, cl))
  }

  // ---- One turn of the loop ----

  ghost function FlushPush(cfg: Config, cl: Clock): (Clock, seq<Rt.Effect>) {
    var cleared := cl.(pending := LR.EMPTY, since := R.None);
    if LR.IsEmpty(cl.pending) then (cleared, [])
    else
      var p := Rt.Pushed(cfg.router, cl.router, cl.pending);
      (cleared.(router := p.0), p.1)
  }

  ghost function FireWant(cfg: Config, cl: Clock): (Clock, seq<Rt.Effect>) {
    var p := Rt.FiredWant(cfg.router, cl.router);
    (cl.(router := p.0.(wantTimer := R.Some(cfg.wantInterval(cl.wantsDrawn))), wantsDrawn := cl.wantsDrawn + 1), p.1)
  }

  ghost function FireHave(cfg: Config, cl: Clock): (Clock, seq<Rt.Effect>) {
    var p := Rt.FiredHave(cfg.router, cl.router);
    if LR.IsEmpty(Rt.NetworkAsk(p.0)) then (cl.(router := p.0), p.1)
    else
      (cl.(router := p.0.(haveTimer := R.Some(cfg.haveInterval(cl.havesDrawn))), havesDrawn := cl.havesDrawn + 1), p.1)
  }

  /** The pending push first, then the Want, then the Have. */
  ghost function FireOne(cfg: Config, cl: Clock): (Clock, seq<Rt.Effect>)
    requires Due(cfg, cl)
  {
    if PushDue(cfg, cl) then FlushPush(cfg, cl)
    else if Rt.WantDue(cl.router) then FireWant(cfg, cl)
    else FireHave(cfg, cl)
  }

  function Least(a: Time, b: Option<Time>): Time {
    if b.Some? && b.value <= a then b.value else a
  }

  /** How far a tick may go: to the target, or the nearest timer or push deadline. */
  function TickLength(cfg: Config, cl: Clock, target: Time): Time
    requires !Due(cfg, cl) && cl.now < target
  {
    var step := Least(target - cl.now, Rt.NextDue(cl.router));
    if cl.since.Some? then Least(step, R.Some(Deadline(cfg, cl.since.value, cl.latest) - cl.now)) else step
  }

  lemma TickAllowed(cfg: Config, cl: Clock, target: Time)
    requires !Due(cfg, cl) && cl.now < target
    ensures Rt.MayTick(cl.router, TickLength(cfg, cl, target))
    ensures TickLength(cfg, cl, target) <= target - cl.now
  {
  }

  function TickedBy(cl: Clock, d: Time): Clock
    requires Rt.MayTick(cl.router, d)
  {
    cl.(router := Rt.Ticked(cl.router, d), now := cl.now + d)
  }

  function DueCount(cfg: Config, cl: Clock): nat {
    (if PushDue(cfg, cl) then 1 else 0) + (if Rt.WantDue(cl.router) then 1 else 0)
    + (if Rt.HaveDue(cl.router) then 1 else 0)
  }

  function Ahead(cl: Clock, target: Time): nat {
    if cl.now < target then target - cl.now else 0
  }

  /** Firing uses up what is due. */
  lemma FiringProgresses(cfg: Config, cl: Clock)
    requires Positive(cfg) && Due(cfg, cl)
    ensures DueCount(cfg, FireOne(cfg, cl).0) < DueCount(cfg, cl)
    ensures FireOne(cfg, cl).0.now == cl.now
  {
    hide LR.IsEmpty, LR.Union, Rt.RelayOf, Rt.NextWant, Rt.NextHave, Rt.NetworkAsk;
  }

  /** Advance to `target`: fire everything due, tick to the next thing due, and so on. */
  ghost function Advance(cfg: Config, cl: Clock, target: Time): (Clock, seq<Rt.Effect>)
    requires Positive(cfg)
    decreases Ahead(cl, target), DueCount(cfg, cl)
  {
    if Due(cfg, cl) then
      FiringProgresses(cfg, cl);
      var p := FireOne(cfg, cl);
      var rest := Advance(cfg, p.0, target);
      (rest.0, p.1 + rest.1)
    else if target <= cl.now then (cl, [])
    else
      TickAllowed(cfg, cl, target);
      Advance(cfg, TickedBy(cl, TickLength(cfg, cl, target)), target)
  }

  // ---- What advancing guarantees ----

  /** It ends at the later of now and the target, with nothing due. */
  lemma {:induction false} AdvanceEnds(cfg: Config, cl: Clock, target: Time)
    requires Positive(cfg)
    ensures var end := Advance(cfg, cl, target).0;
            end.now == (if cl.now <= target then target else cl.now) && !Due(cfg, end)
    decreases Ahead(cl, target), DueCount(cfg, cl)
  {
    hide Due, FireOne, DueCount, TickLength, Rt.Ticked;
    if Due(cfg, cl) {
      FiringProgresses(cfg, cl);
      AdvanceEnds(cfg, FireOne(cfg, cl).0, target);
    } else if cl.now < target {
      TickAllowed(cfg, cl, target);
      AdvanceEnds(cfg, TickedBy(cl, TickLength(cfg, cl, target)), target);
    }
  }

  /** Two ticks in a row are one. */
  lemma TicksJoin(cl: Clock, d: Time, e: Time)
    requires 0 < d && 0 < e && Rt.MayTick(cl.router, d + e)
    ensures Rt.MayTick(cl.router, d) && Rt.MayTick(Rt.Ticked(cl.router, d), e)
    ensures TickedBy(TickedBy(cl, d), e) == TickedBy(cl, d + e)
  {
    hide Rt.Ticked, Rt.MayTick;
    Rt.TicksCompose(cl.router, d, e);
    MayTickFirst(cl.router, d, e);
  }

  lemma MayTickFirst(s: Rt.State, d: Time, e: Time)
    requires 0 < d && Rt.MayTick(s, d + e)
    ensures Rt.MayTick(s, d)
  {
  }

  /** Stopping short of everything due leaves nothing due, and the same next tick to go. */
  lemma StopShort(cfg: Config, cl: Clock, a: Time, b: Time)
    requires !Due(cfg, cl) && cl.now < a < b && TickLength(cfg, cl, a) == a - cl.now < TickLength(cfg, cl, b)
    ensures Rt.MayTick(cl.router, a - cl.now)
    ensures var mid := TickedBy(cl, a - cl.now);
            !Due(cfg, mid) && mid.now == a
            && TickLength(cfg, mid, b) == TickLength(cfg, cl, b) - (a - cl.now)
  {
    hide Rt.AgeRecords, Rt.AgeSeen, Rt.AgeHaves, Rt.AgeHeard;
    TickAllowed(cfg, cl, a);
  }

  /** A nearer target stops at the same place or short of it. */
  lemma TickLengths(cfg: Config, cl: Clock, a: Time, b: Time)
    requires !Due(cfg, cl) && cl.now < a <= b
    ensures TickLength(cfg, cl, a) == TickLength(cfg, cl, b)
            || TickLength(cfg, cl, a) == a - cl.now < TickLength(cfg, cl, b)
  {
  }

  /** Schedule independence: stopping on the way changes neither where a node ends up nor what it sends. */
  lemma {:induction false} AdvanceInTwo(cfg: Config, cl: Clock, a: Time, b: Time)
    requires Positive(cfg) && a <= b
    ensures var first := Advance(cfg, cl, a);
            var second := Advance(cfg, first.0, b);
            Advance(cfg, cl, b) == (second.0, first.1 + second.1)
    decreases Ahead(cl, a), DueCount(cfg, cl)
  {
    hide Due, FireOne, DueCount, TickLength, Rt.Ticked, Rt.MayTick;
    if Due(cfg, cl) {
      FiringProgresses(cfg, cl);
      var p := FireOne(cfg, cl);
      AdvanceInTwo(cfg, p.0, a, b);
      var first := Advance(cfg, p.0, a);
      var second := Advance(cfg, first.0, b);
      assert p.1 + (first.1 + second.1) == (p.1 + first.1) + second.1;
    } else if a <= cl.now {
      assert [] + Advance(cfg, cl, b).1 == Advance(cfg, cl, b).1;
    } else {
      TickAllowed(cfg, cl, a);
      TickAllowed(cfg, cl, b);
      TickLengths(cfg, cl, a, b);
      if TickLength(cfg, cl, a) == TickLength(cfg, cl, b) {
        AdvanceInTwo(cfg, TickedBy(cl, TickLength(cfg, cl, a)), a, b);
      } else {
        StopsShort(cfg, cl, a, b);
      }
    }
  }

  lemma StopsShort(cfg: Config, cl: Clock, a: Time, b: Time)
    requires Positive(cfg) && !Due(cfg, cl) && cl.now < a <= b
    requires TickLength(cfg, cl, a) == a - cl.now < TickLength(cfg, cl, b)
    ensures var first := Advance(cfg, cl, a);
            var second := Advance(cfg, first.0, b);
            Advance(cfg, cl, b) == (second.0, first.1 + second.1)
  {
    hide Due, Rt.Ticked, Rt.MayTick, Advance, TickLength;
    TickAllowed(cfg, cl, a);
    TickAllowed(cfg, cl, b);
    StopShort(cfg, cl, a, b);
    var d, e := a - cl.now, TickLength(cfg, cl, b);
    var mid := TickedBy(cl, d);
    TickAllowed(cfg, mid, b);
    OneTick(cfg, cl, a);
    Arrived(cfg, mid, a);
    OneTick(cfg, cl, b);
    OneTick(cfg, mid, b);
    TicksJoin(cl, d, e - d);
    assert [] + Advance(cfg, mid, b).1 == Advance(cfg, mid, b).1;
  }

  lemma OneTick(cfg: Config, cl: Clock, target: Time)
    requires Positive(cfg) && !Due(cfg, cl) && cl.now < target
    ensures Rt.MayTick(cl.router, TickLength(cfg, cl, target))
    ensures Advance(cfg, cl, target) == Advance(cfg, TickedBy(cl, TickLength(cfg, cl, target)), target)
  {
    hide Due, TickLength, Rt.Ticked, Rt.MayTick, FireOne, DueCount;
    TickAllowed(cfg, cl, target);
  }

  lemma Arrived(cfg: Config, cl: Clock, target: Time)
    requires Positive(cfg) && !Due(cfg, cl) && target <= cl.now
    ensures Advance(cfg, cl, target) == (cl, [])
  {
    hide Due;
  }

  /** Nothing due is ever skipped: a tick never goes past a timer or the push deadline. */
  lemma NothingIsSkipped(cfg: Config, cl: Clock, target: Time)
    requires !Due(cfg, cl) && cl.now < target
    ensures 0 < TickLength(cfg, cl, target)
    ensures NextDeadline(cfg, cl).Some? ==> cl.now + TickLength(cfg, cl, target) <= NextDeadline(cfg, cl).value
    ensures cl.now + TickLength(cfg, cl, target) == target
            || NextDeadline(cfg, cl) == R.Some(cl.now + TickLength(cfg, cl, target))
  {
  }

  /** Up to, but not including, the next deadline, advancing only ticks. */
  lemma QuietUntilDeadline(cfg: Config, cl: Clock, target: Time)
    requires Positive(cfg) && !Due(cfg, cl) && cl.now < target
    requires NextDeadline(cfg, cl).Some? ==> target < NextDeadline(cfg, cl).value
    ensures Rt.MayTick(cl.router, target - cl.now)
    ensures Advance(cfg, cl, target) == (TickedBy(cl, target - cl.now), [])
  {
    TickAllowed(cfg, cl, target);
    NothingIsSkipped(cfg, cl, target);
    assert TickLength(cfg, cl, target) == target - cl.now;
    var end := TickedBy(cl, target - cl.now);
    StillQuiet(cfg, cl, target - cl.now);
    hide Due, FireOne, DueCount, TickLength, Rt.Ticked, Rt.MayTick;
  }

  lemma StillQuiet(cfg: Config, cl: Clock, d: Time)
    requires !Due(cfg, cl) && Rt.MayTick(cl.router, d)
    requires NextDeadline(cfg, cl).Some? ==> cl.now + d < NextDeadline(cfg, cl).value
    ensures !Due(cfg, TickedBy(cl, d))
  {
    hide Rt.AgeRecords, Rt.AgeSeen, Rt.AgeHaves, Rt.AgeHeard;
  }

  // ---- What it leaves alone ----

  lemma FireFrame(cfg: Config, cl: Clock)
    requires Due(cfg, cl)
    ensures var p := FireOne(cfg, cl);
            && p.0.router.id == cl.router.id && p.0.router.openChannels == cl.router.openChannels
            && p.0.latest == cl.latest
            && (forall e :: e in p.1 ==> !e.Accept?)
            && p.0.router.held == (if PushDue(cfg, cl) && !LR.IsEmpty(cl.pending) then LR.Union(cl.router.held, cl.pending)
                                   else cl.router.held)
            && p.0.pending == (if PushDue(cfg, cl) then LR.EMPTY else cl.pending)
  {
    hide PushDue, Rt.WantDue, Rt.HaveDue, FlushPush, FireWant, FireHave, LR.IsEmpty, LR.Union;
    FlushFrame(cfg, cl);
    WantFrame(cfg, cl);
    HaveFrame(cfg, cl);
  }

  lemma FlushFrame(cfg: Config, cl: Clock)
    ensures var p := FlushPush(cfg, cl);
            && p.0.router.id == cl.router.id && p.0.router.openChannels == cl.router.openChannels
            && p.0.latest == cl.latest && p.0.pending == LR.EMPTY
            && (forall e :: e in p.1 ==> !e.Accept?)
            && p.0.router.held == (if LR.IsEmpty(cl.pending) then cl.router.held else LR.Union(cl.router.held, cl.pending))
  {
    hide LR.IsEmpty, LR.Union, Rt.RelayOf;
  }

  lemma WantFrame(cfg: Config, cl: Clock)
    ensures var p := FireWant(cfg, cl);
            && p.0.router.id == cl.router.id && p.0.router.openChannels == cl.router.openChannels
            && p.0.latest == cl.latest && p.0.pending == cl.pending && p.0.router.held == cl.router.held
            && (forall e :: e in p.1 ==> !e.Accept?)
  {
    hide Rt.NextWant;
  }

  lemma HaveFrame(cfg: Config, cl: Clock)
    ensures var p := FireHave(cfg, cl);
            && p.0.router.id == cl.router.id && p.0.router.openChannels == cl.router.openChannels
            && p.0.latest == cl.latest && p.0.pending == cl.pending && p.0.router.held == cl.router.held
            && (forall e :: e in p.1 ==> !e.Accept?)
  {
    hide LR.IsEmpty, Rt.NextHave, Rt.NetworkAsk;
  }

  /** What was pushed is already held: flushing it then leaves the held snapshot as it is. */
  ghost predicate PendingHeld(cl: Clock) {
    && LR.Clean(cl.pending) && LR.Clean(cl.router.held)
    && forall k :: LR.Has(cl.pending, k) ==> LR.Has(cl.router.held, k)
  }

  lemma {:induction false} AdvanceFrame(cfg: Config, cl: Clock, target: Time)
    requires Positive(cfg)
    ensures var p := Advance(cfg, cl, target);
            && p.0.router.id == cl.router.id && p.0.router.openChannels == cl.router.openChannels
            && p.0.latest == cl.latest
            && (forall e :: e in p.1 ==> !e.Accept?)
            && (p.0.pending == cl.pending || p.0.pending == LR.EMPTY)
            && (PendingHeld(cl) ==> p.0.router.held == cl.router.held && PendingHeld(p.0))
    decreases Ahead(cl, target), DueCount(cfg, cl)
  {
    hide Due, FireOne, DueCount, TickLength, PendingHeld;
    if Due(cfg, cl) {
      FiringProgresses(cfg, cl);
      FireFrame(cfg, cl);
      FlushIsHeld(cfg, cl);
      AdvanceFrame(cfg, FireOne(cfg, cl).0, target);
    } else if cl.now < target {
      TickAllowed(cfg, cl, target);
      TickFrame(cl, TickLength(cfg, cl, target));
      AdvanceFrame(cfg, TickedBy(cl, TickLength(cfg, cl, target)), target);
    }
  }

  lemma TickFrame(cl: Clock, d: Time)
    requires Rt.MayTick(cl.router, d)
    ensures var r := TickedBy(cl, d).router;
            r.id == cl.router.id && r.openChannels == cl.router.openChannels && r.held == cl.router.held
    ensures PendingHeld(cl) ==> PendingHeld(TickedBy(cl, d))
  {
    hide Rt.AgeRecords, Rt.AgeSeen, Rt.AgeHaves, Rt.AgeHeard, LR.Has, LR.Clean;
  }

  lemma FlushIsHeld(cfg: Config, cl: Clock)
    requires Due(cfg, cl)
    ensures PendingHeld(cl) ==> FireOne(cfg, cl).0.router.held == cl.router.held && PendingHeld(FireOne(cfg, cl).0)
  {
    hide Due, FireOne, LR.Has, LR.Clean, LR.Union;
    FireFrame(cfg, cl);
    if PendingHeld(cl) {
      LR.UnionAbsorbs(cl.router.held, cl.pending);
      NothingPending();
    }
  }

  lemma NothingPending()
    ensures LR.Clean(LR.EMPTY) && forall k :: !LR.Has(LR.EMPTY, k)
  {
    LR.EmptyHasNothing(LR.EMPTY);
  }

  // ---- When a push goes out ----

  /** By `t` a push is owed: the oldest pending append is then older than the cap, or the latest older than the
      quiet window. */
  ghost predicate PushOwed(cfg: Config, since: Option<Time>, latest: Time, t: Time) {
    since.Some? && (since.value + cfg.maxLatency <= t || latest + cfg.window <= t)
  }

  lemma OwedIsDue(cfg: Config, cl: Clock)
    ensures PushDue(cfg, cl) <==> PushOwed(cfg, cl.since, cl.latest, cl.now)
  {
  }

  /** What is pending is left alone, or flushed. */
  lemma {:induction false} PendingOrFlushed(cfg: Config, cl: Clock, target: Time)
    requires Positive(cfg)
    ensures var end := Advance(cfg, cl, target).0;
            || (end.since == cl.since && end.latest == cl.latest && end.pending == cl.pending)
            || (end.since.None? && end.pending == LR.EMPTY)
    decreases Ahead(cl, target), DueCount(cfg, cl)
  {
    hide Due, FireOne, DueCount, TickLength, Rt.MayTick, Rt.Ticked;
    if Due(cfg, cl) {
      FiringProgresses(cfg, cl);
      PendingOrFired(cfg, cl);
      PendingOrFlushed(cfg, FireOne(cfg, cl).0, target);
    } else if cl.now < target {
      TickAllowed(cfg, cl, target);
      PendingOrFlushed(cfg, TickedBy(cl, TickLength(cfg, cl, target)), target);
    }
  }

  lemma PendingOrFired(cfg: Config, cl: Clock)
    requires Due(cfg, cl)
    ensures var end := FireOne(cfg, cl).0;
            || (end.since == cl.since && end.latest == cl.latest && end.pending == cl.pending)
            || (end.since.None? && end.pending == LR.EMPTY)
    ensures !PushDue(cfg, cl) ==>
              FireOne(cfg, cl).0.since == cl.since && FireOne(cfg, cl).0.pending == cl.pending
              && FireOne(cfg, cl).0.latest == cl.latest
  {
    hide PushDue, Rt.WantDue, Rt.HaveDue, LR.IsEmpty, Rt.NetworkAsk, Rt.Pushed, Rt.FiredWant, Rt.FiredHave;
  }

  /** No push goes out before it is owed. */
  lemma {:induction false} NotPushedEarly(cfg: Config, cl: Clock, target: Time)
    requires Positive(cfg)
    requires !PushOwed(cfg, cl.since, cl.latest, if cl.now <= target then target else cl.now)
    ensures var end := Advance(cfg, cl, target).0; end.since == cl.since && end.pending == cl.pending
    decreases Ahead(cl, target), DueCount(cfg, cl)
  {
    hide Due, FireOne, DueCount, TickLength, PushDue, Rt.MayTick, Rt.Ticked;
    OwedIsDue(cfg, cl);
    if Due(cfg, cl) {
      FiringProgresses(cfg, cl);
      PendingOrFired(cfg, cl);
      NotPushedEarly(cfg, FireOne(cfg, cl).0, target);
    } else if cl.now < target {
      TickAllowed(cfg, cl, target);
      NotPushedEarly(cfg, TickedBy(cl, TickLength(cfg, cl, target)), target);
    }
  }

  /** However the timers fall, advancing flushes what is pending exactly if by then the oldest append has waited for
      the cap or the latest for the quiet window; otherwise nothing pending is touched. */
  lemma PushedWhenOwed(cfg: Config, cl: Clock, target: Time)
    requires Positive(cfg)
    ensures var end := Advance(cfg, cl, target).0;
            var until := if cl.now <= target then target else cl.now;
            && end.latest == cl.latest
            && if cl.since.Some? && (cl.since.value + cfg.maxLatency <= until || cl.latest + cfg.window <= until)
               then end.since.None? && end.pending == LR.EMPTY
               else end.since == cl.since && end.pending == cl.pending
  {
    hide Advance, Due, Positive;
    AdvanceFrame(cfg, cl, target);
    var end := Advance(cfg, cl, target).0;
    if PushOwed(cfg, cl.since, cl.latest, if cl.now <= target then target else cl.now) {
      PendingOrFlushed(cfg, cl, target);
      AdvanceEnds(cfg, cl, target);
      NothingOwed(cfg, end);
    } else {
      NotPushedEarly(cfg, cl, target);
    }
  }

  lemma NothingOwed(cfg: Config, cl: Clock)
    requires !Due(cfg, cl)
    ensures !PushOwed(cfg, cl.since, cl.latest, cl.now)
  {
  }

  // ---- When a Want goes out ----

  /** The sum of the intervals drawn from `i` up to `j`. */
  function Drawn(interval: nat -> Time, i: nat, j: nat): Time
    requires i <= j
  {
    if i == j then 0 else Drawn(interval, i, j - 1) + interval(j - 1)
  }

  lemma {:induction false} DrawnFirst(interval: nat -> Time, i: nat, j: nat)
    requires i < j
    ensures Drawn(interval, i, j) == interval(i) + Drawn(interval, i + 1, j)
    ensures i + 1 < j ==> Drawn(interval, i, j - 1) == interval(i) + Drawn(interval, i + 1, j - 1)
  {
    if i + 1 < j {
      DrawnFirst(interval, i, j - 1);
    }
  }

  /** Wants go out exactly when the script says, whatever else is due: an armed Want timer stays armed, and the next
      Want is due the drawn intervals after the first. So by the end all of those are out that were due by then, and
      no others. */
  lemma {:induction false} WantsKeepTime(cfg: Config, cl: Clock, target: Time)
    requires Positive(cfg) && cl.router.wantTimer.Some?
    ensures var end := Advance(cfg, cl, target).0;
            var next := cl.now + cl.router.wantTimer.value;
            && end.router.wantTimer.Some? && cl.wantsDrawn <= end.wantsDrawn
            && end.now + end.router.wantTimer.value == next + Drawn(cfg.wantInterval, cl.wantsDrawn, end.wantsDrawn)
            && end.now < next + Drawn(cfg.wantInterval, cl.wantsDrawn, end.wantsDrawn)
            && (cl.wantsDrawn < end.wantsDrawn ==>
                  next + Drawn(cfg.wantInterval, cl.wantsDrawn, end.wantsDrawn - 1) <= end.now)
    decreases Ahead(cl, target), DueCount(cfg, cl)
  {
    hide Due, FireOne, DueCount, TickLength, Rt.MayTick, Rt.Ticked, Positive;
    AdvanceEnds(cfg, cl, target);
    var end := Advance(cfg, cl, target).0;
    if Due(cfg, cl) {
      FiringProgresses(cfg, cl);
      WantTimerFired(cfg, cl);
      var fired := FireOne(cfg, cl).0;
      WantsKeepTime(cfg, fired, target);
      if fired.wantsDrawn != cl.wantsDrawn {
        DrawnFirst(cfg.wantInterval, cl.wantsDrawn, end.wantsDrawn);
      }
    } else if target <= cl.now {
      NothingDue(cfg, cl);
    } else {
      TickAllowed(cfg, cl, target);
      WantTimerTicked(cl, TickLength(cfg, cl, target));
      WantsKeepTime(cfg, TickedBy(cl, TickLength(cfg, cl, target)), target);
    }
  }

  lemma NothingDue(cfg: Config, cl: Clock)
    requires !Due(cfg, cl) && cl.router.wantTimer.Some?
    ensures 0 < cl.router.wantTimer.value
  {
  }

  lemma WantTimerTicked(cl: Clock, d: Time)
    requires Rt.MayTick(cl.router, d) && cl.router.wantTimer.Some?
    ensures var r := TickedBy(cl, d).router;
            r.wantTimer.Some? && r.wantTimer.value + d == cl.router.wantTimer.value
  {
    hide Rt.AgeRecords, Rt.AgeSeen, Rt.AgeHaves, Rt.AgeHeard;
  }

  /** A Want is fired when its time is up and nothing comes before it; the next one is drawn at once. */
  lemma WantTimerFired(cfg: Config, cl: Clock)
    requires Due(cfg, cl) && cl.router.wantTimer.Some?
    ensures var end := FireOne(cfg, cl).0;
            if end.wantsDrawn == cl.wantsDrawn then end.router.wantTimer == cl.router.wantTimer
            else cl.router.wantTimer == R.Some(0) && end.wantsDrawn == cl.wantsDrawn + 1
                 && end.router.wantTimer == R.Some(cfg.wantInterval(cl.wantsDrawn))
  {
    hide LR.IsEmpty, LR.Union, Rt.RelayOf, Rt.NextWant, Rt.NextHave, Rt.NetworkAsk, PushDue;
  }

  // ---- In which order ----

  /** Of what is due at one instant the push goes out first, then the Want, then the Have. */
  lemma FiresInOrder(cfg: Config, cl: Clock, target: Time)
    requires Positive(cfg)
    ensures var out := Advance(cfg, cl, target).1;
            && (PushOwed(cfg, cl.since, cl.latest, cl.now) && !LR.IsEmpty(cl.pending) ==>
                  Rt.Pushed(cfg.router, cl.router, cl.pending).1 <= out)
            && (!PushOwed(cfg, cl.since, cl.latest, cl.now) && Rt.WantDue(cl.router) ==>
                  Rt.FiredWant(cfg.router, cl.router).1 <= out)
            && (!PushOwed(cfg, cl.since, cl.latest, cl.now) && !Rt.WantDue(cl.router) && Rt.HaveDue(cl.router) ==>
                  Rt.FiredHave(cfg.router, cl.router).1 <= out)
  {
    hide Rt.WantDue, Rt.HaveDue, LR.IsEmpty, Rt.Pushed, Rt.FiredWant, Rt.FiredHave, Rt.NetworkAsk, DueCount;
    if Due(cfg, cl) {
      FiringProgresses(cfg, cl);
    }
  }

  // ---- The actions it takes are enabled ----

  lemma FlushIsPush(cfg: Config, cl: Clock)
    requires !LR.IsEmpty(cl.pending)
    ensures Rt.Step(cfg.router, cl.router, Rt.Push(cl.pending))
         == R.Some((FlushPush(cfg, cl).0.router, FlushPush(cfg, cl).1))
  {
    hide LR.IsEmpty, LR.Union, Rt.RelayOf;
  }

  lemma FireWantSteps(cfg: Config, cl: Clock)
    requires Rt.WantDue(cl.router)
    ensures Rt.Step(cfg.router, cl.router, Rt.FireWant) == R.Some(Rt.FiredWant(cfg.router, cl.router))
    ensures var p := Rt.FiredWant(cfg.router, cl.router);
            Rt.Step(cfg.router, p.0, Rt.ArmWantTimer(cfg.wantInterval(cl.wantsDrawn)))
            == R.Some((FireWant(cfg, cl).0.router, []))
    ensures FireWant(cfg, cl).1 == Rt.FiredWant(cfg.router, cl.router).1
  {
    hide Rt.NextWant;
  }

  lemma FireHaveSteps(cfg: Config, cl: Clock)
    requires Rt.HaveDue(cl.router)
    ensures Rt.Step(cfg.router, cl.router, Rt.FireHave) == R.Some(Rt.FiredHave(cfg.router, cl.router))
    ensures var p := Rt.FiredHave(cfg.router, cl.router);
            if LR.IsEmpty(Rt.NetworkAsk(p.0)) then FireHave(cfg, cl).0.router == p.0
            else Rt.Step(cfg.router, p.0, Rt.ArmHaveTimer(cfg.haveInterval(cl.havesDrawn)))
                 == R.Some((FireHave(cfg, cl).0.router, []))
    ensures FireHave(cfg, cl).0.havesDrawn
         == cl.havesDrawn + if LR.IsEmpty(Rt.NetworkAsk(Rt.FiredHave(cfg.router, cl.router).0)) then 0 else 1
    ensures FireHave(cfg, cl).1 == Rt.FiredHave(cfg.router, cl.router).1
  {
    hide Rt.NextHave, LR.IsEmpty, Rt.NetworkAsk;
  }

  lemma OneFire(cfg: Config, cl: Clock, target: Time)
    requires Positive(cfg) && Due(cfg, cl)
    ensures var p := FireOne(cfg, cl);
            var rest := Advance(cfg, p.0, target);
            Advance(cfg, cl, target) == (rest.0, p.1 + rest.1)
    ensures DueCount(cfg, FireOne(cfg, cl).0) < DueCount(cfg, cl) && FireOne(cfg, cl).0.now == cl.now
    ensures FireOne(cfg, cl).0.router.id == cl.router.id
    ensures forall e :: e in FireOne(cfg, cl).1 ==> !e.Accept?
  {
    hide Due, FireOne, DueCount;
    FiringProgresses(cfg, cl);
    FireFrame(cfg, cl);
  }
}

/** The node's select loop: handlers called one after the other, in any order and at any times. */
module Serving {
  import R = Ranges
  import opened Logs
  import LR = LogRanges
  import Rt = Router
  import Clocks
  import Node
  import Paced
  import opened Storage
  import opened Faults
  import opened Shell

  /** What the loop wakes up for: a message, a command, a hint, the maintenance interval, its own deadline. */
  datatype Call =
    | Wire(incoming: Incoming)
    | Append(key: Key, op: Op)
    | Subscribe(channel: Channel)
    | Unsubscribe(channel: Channel)
    | Hint(logs: set<Log>)
    | Maintain
    | Wake

  datatype Request = Request(at: Time, call: Call)

  /** What a call asks of the node machine, on behalf of somebody. A message that is not taken in asks nothing. */
  function InputOf(cfg: Config, id: NodeId, call: Call): seq<Node.Action> {
    match call
    case Wire(inc) => if TakesIn(cfg, id, inc) then [Node.Recv(inc.decoded.value)] else []
    case Append(k, op) => [Node.NativeSync(k, op)]
    case Subscribe(c) => [Node.Subscribe(c)]
    case Unsubscribe(c) => [Node.Unsubscribe(c)]
    case _ => []
  }

  function InputsOf(cfg: Config, id: NodeId, requests: seq<Request>): seq<Node.Action> {
    if requests == [] then []
    else InputsOf(cfg, id, requests[..|requests| - 1]) + InputOf(cfg, id, requests[|requests| - 1].call)
  }

  // ---- What a call adds to the catching up ----

  /** A handler's whole run: it is a run of the node machine, of the call's own inputs and no others, over the time
      that has passed. */
  ghost predicate Served(m: Node.Machine, p: Paced.State, moves: seq<Paced.Move>, p': Paced.State, out: seq<Out>,
                         inputs: seq<Node.Action>, time: int)
  {
    Ran(m, p, moves, p', out) && Paced.Inputs(moves) == inputs && Paced.Elapsed(moves) == time
  }

  lemma ServedOn(m: Node.Machine, p: Paced.State, a: seq<Paced.Move>, mid: Paced.State, before: seq<Out>,
                 i: seq<Node.Action>, t: int, b: seq<Paced.Move>, p': Paced.State, out: seq<Out>, j: seq<Node.Action>,
                 u: int)
    requires Served(m, p, a, mid, before, i, t) && Served(m, mid, b, p', out, j, u)
    ensures Served(m, p, a + b, p', before + out, i + j, t + u)
  {
    hide Paced.Run, Paced.Inputs, Paced.Elapsed, Lift;
    var ra, rb := Paced.Run(m, p, a).value, Paced.Run(m, mid, b).value;
    Paced.RunsOn(m, p, a, mid, ra.1, b, p', rb.1);
    LiftConcat(ra.1, rb.1);
    Paced.InputsConcat(a, b);
    Paced.ElapsedConcat(a, b);
  }

  lemma ServedNone(m: Node.Machine, p: Paced.State)
    ensures Served(m, p, [], p, [], [], 0)
  {
    Paced.NoMoves();
  }

  lemma NothingMore(m: Node.Machine, p: Paced.State, moves: seq<Paced.Move>, p': Paced.State, out: seq<Out>, time: int)
    ensures Served(m, p, moves, p', out, [], time) ==> Served(m, p, moves + [], p', out, [], time)
  {
    assert moves + [] == moves;
  }

  /** One more input, taken after catching up. */
  lemma OneMore(m: Node.Machine, p: Paced.State, moves: seq<Paced.Move>, mid: Paced.State, before: seq<Out>, time: int,
                a: Node.Action, p': Paced.State)
    requires Served(m, p, moves, mid, before, [], time)
    requires Paced.Step(m, mid, Paced.Act(a)) == R.Some((p', [])) && Paced.IsInput(Paced.Act(a))
    ensures Served(m, p, moves + [Paced.Act(a)], p', before, [a], time)
  {
    hide Paced.Step, Paced.Run, Node.Step;
    Paced.RunsOne(m, mid, Paced.Act(a), p', []);
    OneInput(Paced.Act(a));
    assert Lift([]) == [];
    assert before + [] == before && [] + [a] == [a];
    ServedOn(m, p, moves, mid, before, [], time, [Paced.Act(a)], p', [], [a], 0);
  }

  lemma OneInput(mv: Paced.Move)
    requires Paced.IsInput(mv)
    ensures Paced.Inputs([mv]) == [mv.action] && Paced.Elapsed([mv]) == 0
  {
    assert [mv][1..] == [];
  }

  /** One more action of the node's own, which is none of the router's. */
  lemma OneOwn(m: Node.Machine, p: Paced.State, moves: seq<Paced.Move>, mid: Paced.State, before: seq<Out>, time: int,
               a: Node.Action, p': Paced.State)
    requires Served(m, p, moves, mid, before, [], time)
    requires Paced.Step(m, mid, Paced.Act(a)) == R.Some((p', [])) && (a.RelayEvict? || a.RelayEvictPayloads?)
    ensures Served(m, p, moves + [Paced.Act(a)], p', before, [], time)
  {
    hide Paced.Step, Paced.Run, Node.Step;
    Paced.RunsOne(m, mid, Paced.Act(a), p', []);
    Paced.OwnOnly(Paced.Act(a), Paced.Act(a));
    assert Lift([]) == [];
    assert before + [] == before;
    ServedOn(m, p, moves, mid, before, [], time, [Paced.Act(a)], p', [], [], 0);
  }

  // ---- Each call ----

  lemma AppendServed(m: Node.Machine, p: Paced.State, moves: seq<Paced.Move>, mid: Paced.State, before: seq<Out>, time: int,
                     k: Key, op: Op, pending: LR.LogRanges)
    requires Served(m, p, moves, mid, before, [], time)
    requires Joined(pending, mid.pending, k)
    ensures Served(m, p, moves + [Paced.Act(Node.NativeSync(k, op))],
                   Paced.State(Node.IngestedExt(mid.node, k, op), pending), before, [Node.NativeSync(k, op)], time)
  {
    hide Served, Node.IngestedExt, LR.Union, LR.Singleton;
    OneMore(m, p, moves, mid, before, time, Node.NativeSync(k, op),
            Paced.State(Node.IngestedExt(mid.node, k, op), pending));
  }

  lemma SubscribeServed(m: Node.Machine, p: Paced.State, moves: seq<Paced.Move>, mid: Paced.State, before: seq<Out>,
                        time: int, c: Channel)
    requires Served(m, p, moves, mid, before, [], time)
    ensures Served(m, p, moves + [Paced.Act(Node.Subscribe(c))], mid.(node := Node.Subscribed(mid.node, c)), before,
                   [Node.Subscribe(c)], time)
    ensures Served(m, p, moves + [Paced.Act(Node.Unsubscribe(c))], mid.(node := Node.Unsubscribed(mid.node, c)), before,
                   [Node.Unsubscribe(c)], time)
  {
    hide Served, Node.Subscribed, Node.Unsubscribed;
    OneMore(m, p, moves, mid, before, time, Node.Subscribe(c), mid.(node := Node.Subscribed(mid.node, c)));
    OneMore(m, p, moves, mid, before, time, Node.Unsubscribe(c), mid.(node := Node.Unsubscribed(mid.node, c)));
  }

  /** Maintenance is one eviction, or none. */
  lemma MaintainServed(m: Node.Machine, p: Paced.State, moves: seq<Paced.Move>, mid: Paced.State, before: seq<Out>,
                       time: int, threshold: nat, n': Node.State) returns (tail: seq<Paced.Move>)
    requires Served(m, p, moves, mid, before, [], time)
    requires Maintained(mid.node, threshold, n')
    ensures Served(m, p, moves + tail, mid.(node := n'), before, [], time)
  {
    hide Served, Node.Reconcile, Usage, LR.Difference, LR.IsEmpty, HeldPayloads, HeldAll, Rt.NetworkAsk;
    var n, ask := mid.node, Rt.NetworkAsk(mid.node.router);
    var candidates, whole := LR.Difference(HeldPayloads(n.relay), ask), LR.Difference(HeldAll(n.relay), ask);
    if n' == n {
      tail := [];
      NothingMore(m, p, moves, mid, before, time);
    } else if !LR.IsEmpty(candidates) {
      tail := [Paced.Act(Node.RelayEvictPayloads(candidates))];
      OneOwn(m, p, moves, mid, before, time, Node.RelayEvictPayloads(candidates), mid.(node := n'));
    } else {
      tail := [Paced.Act(Node.RelayEvict(whole))];
      OneOwn(m, p, moves, mid, before, time, Node.RelayEvict(whole), mid.(node := n'));
    }
  }

  /** A message is one receipt, and for a Want perhaps the arming of the Have timer. */
  lemma WireServed(m: Node.Machine, p: Paced.State, moves: seq<Paced.Move>, mid: Paced.State, before: seq<Out>, time: int,
                   msg: Node.Message, interval: Time, n': Node.State, out: seq<Out>) returns (tail: seq<Paced.Move>)
    requires Served(m, p, moves, mid, before, [], time)
    requires WireReceived(m, mid.node, msg, interval, n', before, out)
    ensures Served(m, p, moves + tail, mid.(node := n'), out, [Node.Recv(msg)], time)
  {
    hide Served, Received;
    var more :| Received(m, mid.node, msg, interval, n', more) && out == before + more;
    tail := ReceivedServed(m, mid, msg, interval, n', more);
    assert [] + [Node.Recv(msg)] == [Node.Recv(msg)];
    ServedOn(m, p, moves, mid, before, [], time, tail, mid.(node := n'), more, [Node.Recv(msg)], 0);
  }

  lemma ReceivedServed(m: Node.Machine, mid: Paced.State, msg: Node.Message, interval: Time, n': Node.State,
                       more: seq<Out>) returns (tail: seq<Paced.Move>)
    requires Received(m, mid.node, msg, interval, n', more)
    ensures Served(m, mid, tail, mid.(node := n'), more, [Node.Recv(msg)], 0)
  {
    hide Paced.Run, Node.Routed, Node.ReceivedHave, LR.IsEmpty, Rt.NetworkAsk, Lift;
    var recv := Paced.Act(Node.Recv(msg));
    var r := Node.Step(m, mid.node, Node.Recv(msg)).value;
    tail := [recv];
    OneInput(recv);
    Paced.RunsOne(m, mid, recv, mid.(node := r.0), r.1);
    if r.0 != n' {
      tail := [recv] + [Paced.Own(Rt.ArmHaveTimer(interval))];
      ArmServed(m, mid.(node := r.0), interval);
      assert [Node.Recv(msg)] + [] == [Node.Recv(msg)] && more + [] == more;
      ServedOn(m, mid, [recv], mid.(node := r.0), more, [Node.Recv(msg)], 0, [Paced.Own(Rt.ArmHaveTimer(interval))],
               mid.(node := n'), [], [], 0);
    }
  }

  lemma ArmServed(m: Node.Machine, p: Paced.State, interval: Time)
    requires p.node.router.haveTimer.None? && !LR.IsEmpty(Rt.NetworkAsk(p.node.router))
    ensures Served(m, p, [Paced.Own(Rt.ArmHaveTimer(interval))],
                   p.(node := p.node.(router := Armed(p.node.router, interval))), [], [], 0)
  {
    hide LR.IsEmpty, Rt.NetworkAsk, Paced.Run, Rt.Step;
    var arm := Paced.Own(Rt.ArmHaveTimer(interval));
    var n' := p.node.(router := Armed(p.node.router, interval));
    ArmIsTaken(m.router, p.node.router, interval);
    Paced.OwnStep(m, p.node, p.pending, Rt.ArmHaveTimer(interval), n'.router, []);
    Paced.RunsOne(m, p, arm, p.(node := n'), []);
    Paced.OwnOnly(arm, arm);
  }

  // ---- What every call keeps ----

  /** The stores, and how often the relay's usage has been read too low. */
  datatype Stock = Stock(relay: OpsMap, ext: OpsMap, misreads: nat)

  ghost function StockOf(core: NodeCore): Stock
    reads core`relay, core`ext, core`misreads
  {
    Stock(core.relay, core.ext, core.misreads)
  }

  /** Whatever fails: the application's store loses nothing; the relay keeps its cap, unless a usage read comes out
      too low; and until something is evicted on purpose neither store loses an op or a payload the other has not. */
  ghost predicate Kept(core: NodeCore, a: Stock, b: Stock, evicts: bool) {
    && Grows(a.ext, b.ext) && CapKept(core.cfg.relayCap, core.Forthright(), a.relay, a.misreads, b.relay, b.misreads)
    && (!evicts ==> NothingLost(a.relay, a.ext, b.relay, b.ext))
  }

  lemma KeptOn(core: NodeCore, a: Stock, b: Stock, c: Stock, evicts: bool, evicts': bool)
    requires Kept(core, a, b, evicts) && Kept(core, b, c, evicts')
    ensures Kept(core, a, c, evicts || evicts')
  {
    hide Usage, HasPayload, NodeCore.Forthright;
  }

  lemma KeptAtAll(core: NodeCore, a: Stock, evicts: bool)
    ensures Kept(core, a, a, evicts)
  {
  }

  lemma KeptGrowing(core: NodeCore, a: Stock, b: Stock)
    requires Grows(a.relay, b.relay) && Grows(a.ext, b.ext)
    requires CapKept(core.cfg.relayCap, core.Forthright(), a.relay, a.misreads, b.relay, b.misreads)
    ensures Kept(core, a, b, false)
  {
    hide Usage, NodeCore.Forthright;
  }

  lemma KeptShrinking(core: NodeCore, a: Stock, b: Stock, evicts: bool)
    requires Usage(b.relay) <= Usage(a.relay) && Grows(a.ext, b.ext)
    requires a.misreads <= b.misreads && (core.Forthright() ==> b.misreads == a.misreads)
    requires !evicts ==> NothingLost(a.relay, a.ext, b.relay, b.ext)
    ensures Kept(core, a, b, evicts)
  {
    hide Usage, NothingLost, Grows, NodeCore.Forthright;
  }

  lemma KeptAppending(core: NodeCore, a: Stock, b: Stock, k: Key, op: Op)
    requires b == a.(ext := b.ext) && (b.ext == a.ext || b.ext == Ingest(a.ext, k, op))
    ensures Kept(core, a, b, false)
  {
    hide Usage, NodeCore.Forthright;
  }

  // ---- How long an append waits ----

  /** One turn: what an append stores joins what still waits by then. */
  ghost predicate Waited(still: Waiting, rq: Request, answering: bool, w': Waiting) {
    || (rq.call.Append? && Appended(still, rq.call.key, rq.at, w'))
    || (!(answering && rq.call.Append?) && w' == still)
  }

  predicate Appends(requests: seq<Request>, l: int, k: Key) {
    0 <= l < |requests| && requests[l].call.Append? && requests[l].call.key == k
  }

  /** Every request from `l` on comes before `t`. */
  predicate AllBefore(requests: seq<Request>, l: int, t: Time) {
    forall i :: 0 <= i && l <= i < |requests| ==> requests[i].at < t
  }

  /** The oldest append that waits was request `i`, the latest request `j` (before the first request, for -1), and
      no request since came late enough for either to be pushed. What waits was appended from the `i`th on, and if no
      store call fails it is all that was. */
  ghost predicate WaitsSince(cfg: Clocks.Config, w0: Waiting, requests: seq<Request>, answering: bool, w: Waiting, i: int,
                             j: int)
  {
    && -1 <= i <= j < |requests| && w.since.Some?
    && (if i < 0 then w.since == w0.since else requests[i].call.Append? && w.since == R.Some(requests[i].at))
    && (if j < 0 then w.latest == w0.latest else requests[j].call.Append? && w.latest == requests[j].at)
    && AllBefore(requests, i + 1, w.since.value + cfg.maxLatency)
    && AllBefore(requests, j + 1, w.latest + cfg.window)
    && (forall k :: LR.Has(w.pending, k) ==> (i < 0 && LR.Has(w0.pending, k)) || exists l :: i <= l && Appends(requests, l, k))
    && (forall k, l :: answering && i <= l && Appends(requests, l, k) ==> LR.Has(w.pending, k))
  }

  ghost predicate NothingWaits(w: Waiting) {
    w.since.None? && w.pending == LR.EMPTY
  }

  /** Nothing waits, or nothing waits too long. */
  ghost predicate Timely(cfg: Clocks.Config, w0: Waiting, requests: seq<Request>, answering: bool, w: Waiting) {
    w0.since.Some? || NothingWaits(w0) ==>
      NothingWaits(w) || exists i, j :: WaitsSince(cfg, w0, requests, answering, w, i, j)
  }

  lemma TimelyAtFirst(cfg: Clocks.Config, w0: Waiting, answering: bool)
    ensures Timely(cfg, w0, [], answering, w0)
  {
    hide LR.Has;
    if w0.since.Some? {
      assert WaitsSince(cfg, w0, [], answering, w0, -1, -1);
    }
  }

  lemma TimelyNext(cfg: Clocks.Config, w0: Waiting, requests: seq<Request>, n: nat, now: Time, answering: bool, w: Waiting,
                   w': Waiting)
    requires n < |requests| && Timely(cfg, w0, requests[..n], answering, w)
    requires Waited(StillWaiting(cfg, w, if now <= requests[n].at then requests[n].at else now), requests[n], answering, w')
    ensures Timely(cfg, w0, requests[..n + 1], answering, w')
  {
    hide LR.Has, WaitsSince, Appended;
    var done, more := requests[..n], requests[..n + 1];
    var until := if now <= requests[n].at then requests[n].at else now;
    var still := StillWaiting(cfg, w, until);
    if w0.since.Some? || NothingWaits(w0) {
      if NothingWaits(still) {
        if w' != still {
          FirstWaits(cfg, w0, requests, n, answering, still, w');
        }
      } else {
        var i, j :| WaitsSince(cfg, w0, done, answering, w, i, j);
        SomeWait(cfg, w0, done, answering, w, i, j);
        StillUnpushed(cfg, w0, requests, n, answering, w, i, j);
        if !(requests[n].call.Append? && Appended(still, requests[n].call.key, requests[n].at, w')) {
          WaitsOn(cfg, w0, requests, n, answering, w, i, j);
        } else {
          NextWaits(cfg, w0, requests, n, answering, w, w', i, j);
        }
      }
    }
  }

  lemma SomeWait(cfg: Clocks.Config, w0: Waiting, requests: seq<Request>, answering: bool, w: Waiting, i: int, j: int)
    requires WaitsSince(cfg, w0, requests, answering, w, i, j)
    ensures w.since.Some?
  {
    hide LR.Has, AllBefore;
  }

  /** An append with nothing waiting. */
  lemma FirstWaits(cfg: Clocks.Config, w0: Waiting, requests: seq<Request>, n: nat, answering: bool, w: Waiting,
                   w': Waiting)
    requires n < |requests| && requests[n].call.Append? && NothingWaits(w)
    requires Appended(w, requests[n].call.key, requests[n].at, w')
    ensures WaitsSince(cfg, w0, requests[..n + 1], answering, w', n, n)
  {
    hide LR.Has;
    LR.EmptyHasNothing(LR.EMPTY);
    var more := requests[..n + 1];
    forall k | LR.Has(w'.pending, k) ensures exists l :: n <= l && Appends(more, l, k) {
      JoinedHas(w'.pending, w.pending, requests[n].call.key, k);
      assert Appends(more, n, k);
    }
    forall k, l | n <= l && Appends(more, l, k) ensures LR.Has(w'.pending, k) {
      JoinedHas(w'.pending, w.pending, requests[n].call.key, k);
    }
  }

  lemma JoinedHas(out: LR.LogRanges, pending: LR.LogRanges, k: Key, x: Key)
    requires Joined(out, pending, k)
    ensures LR.Has(out, x) <==> LR.Has(pending, x) || x == k
  {
    hide LR.Has;
  }

  lemma StillUnpushed(cfg: Clocks.Config, w0: Waiting, requests: seq<Request>, n: nat, answering: bool, w: Waiting, i: int,
                      j: int)
    requires n < |requests| && WaitsSince(cfg, w0, requests[..n], answering, w, i, j)
    requires requests[n].at < w.since.value + cfg.maxLatency && requests[n].at < w.latest + cfg.window
    ensures AllBefore(requests[..n + 1], i + 1, w.since.value + cfg.maxLatency)
    ensures AllBefore(requests[..n + 1], j + 1, w.latest + cfg.window)
  {
    hide LR.Has, Appends;
    var done, more := requests[..n], requests[..n + 1];
    forall l | 0 <= l < n ensures more[l] == done[l] {
    }
  }

  lemma WaitsOn(cfg: Clocks.Config, w0: Waiting, requests: seq<Request>, n: nat, answering: bool, w: Waiting, i: int, j: int)
    requires n < |requests| && WaitsSince(cfg, w0, requests[..n], answering, w, i, j)
    requires AllBefore(requests[..n + 1], i + 1, w.since.value + cfg.maxLatency)
    requires AllBefore(requests[..n + 1], j + 1, w.latest + cfg.window)
    requires !(answering && requests[n].call.Append?)
    ensures WaitsSince(cfg, w0, requests[..n + 1], answering, w, i, j)
  {
    hide LR.Has, AllBefore;
    var done, more := requests[..n], requests[..n + 1];
    forall k | LR.Has(w.pending, k) && !(i < 0 && LR.Has(w0.pending, k)) ensures exists l :: i <= l && Appends(more, l, k) {
      var l :| i <= l && Appends(done, l, k);
      assert Appends(more, l, k);
    }
    forall k, l | answering && i <= l && Appends(more, l, k) ensures LR.Has(w.pending, k) {
      assert Appends(done, l, k);
    }
  }

  lemma NextWaits(cfg: Clocks.Config, w0: Waiting, requests: seq<Request>, n: nat, answering: bool, w: Waiting, w': Waiting,
                  i: int, j: int)
    requires n < |requests| && WaitsSince(cfg, w0, requests[..n], answering, w, i, j)
    requires AllBefore(requests[..n + 1], i + 1, w.since.value + cfg.maxLatency)
    requires requests[n].call.Append? && Appended(w, requests[n].call.key, requests[n].at, w')
    ensures WaitsSince(cfg, w0, requests[..n + 1], answering, w', i, n)
  {
    hide LR.Has, Joined;
    var done, more := requests[..n], requests[..n + 1];
    assert AllBefore(more, n + 1, w'.latest + cfg.window);
    hide AllBefore;
    forall k | LR.Has(w'.pending, k) && !(i < 0 && LR.Has(w0.pending, k)) ensures exists l :: i <= l && Appends(more, l, k) {
      JoinedHas(w'.pending, w.pending, requests[n].call.key, k);
      if LR.Has(w.pending, k) {
        var l :| i <= l && Appends(done, l, k);
        assert Appends(more, l, k);
      } else {
        assert Appends(more, n, k);
      }
    }
    forall k, l | answering && i <= l && Appends(more, l, k) ensures LR.Has(w'.pending, k) {
      JoinedHas(w'.pending, w.pending, requests[n].call.key, k);
      if l < n {
        assert Appends(done, l, k);
      }
    }
  }

  // ---- The loop ----

  lemma CatchUpServed(core: NodeCore, at: Time)
    requires Clocks.Positive(core.cfg.clock)
    ensures Served(core.Machine(), core.Pace(), core.CatchUpMoves(at),
                   Paced.State(core.CaughtUp(at), core.StillWaits(at).pending), core.CatchUpOut(at), [],
                   core.CaughtClk(at).now - core.now)
    ensures core.CaughtUp(at).router.id == core.router.id
  {
    hide Clocks.Positive, Ran, Paced.Inputs, Paced.Elapsed, Paced.AdvanceMoves, Clocks.Advance, NodeCore.StillWaits;
    core.CatchUpRan(at);
    core.CaughtUpId(at);
    core.CaughtUpWaits(at);
  }

  method HandleWire(core: NodeCore, at: Time, inc: Incoming) returns (out: seq<Out>, ghost tail: seq<Paced.Move>)
    requires Clocks.Positive(core.cfg.clock)
    modifies core
    ensures core.Reliable() && old(core.Synced()) ==>
              core.Synced()
              && Served(core.Machine(), old(core.Pace()), old(core.CatchUpMoves(at)) + tail, core.Pace(), out,
                        InputOf(core.cfg, core.router.id, Wire(inc)), core.now - old(core.now))
    ensures core.Answering() && old(core.Grounded()) ==> core.Grounded()
    ensures Kept(core, old(StockOf(core)), StockOf(core), false)
    ensures core.Waits() == old(core.StillWaits(at))
    ensures core.router.id == old(core.router.id)
  {
    hide Clocks.Positive, Clocks.Advance, NodeCore.Reliable, NodeCore.Answering, NodeCore.Forthright, NodeCore.Synced,
         NodeCore.Grounded, NodeCore.CatchUpMoves, NodeCore.CatchUpOut, NodeCore.CaughtClk, NodeCore.CaughtUp, Served,
         Kept, CapKept, Grows, WireReceived, Honest, NoDeliveries, NodeCore.StillWaits, PutOutInTwo,
         ReceivedFx, NodeCore.CatchUpFx, NodeCore.NextHaveInterval;
    ghost var m, p, moves := core.Machine(), core.Pace(), core.CatchUpMoves(at);
    ghost var mid := Paced.State(core.CaughtUp(at), core.StillWaits(at).pending);
    ghost var before, time, interval := core.CatchUpOut(at), core.CaughtClk(at).now - core.now,
                                        core.NextHaveInterval(at);
    ghost var well, stock := core.Reliable() && core.Synced(), StockOf(core);
    tail := [];
    CatchUpServed(core, at);
    NothingMore(m, p, moves, mid, before, time);
    ghost var failed;
    out, failed := core.OnWire(at, inc);
    KeptGrowing(core, stock, StockOf(core));
    if well && inc.decoded.Some? && TakesIn(core.cfg, core.router.id, inc) {
      tail := WireServed(m, p, moves, mid, before, time, inc.decoded.value, interval, core.Abs(), out);
    }
  }

  /** One turn. Without failures and from a synced state it is a run of the node machine on exactly what the call
      asks, and the node is synced afterwards. Whatever fails, what is owed a push by then is pushed, and nothing
      else is. */
  method Handle(core: NodeCore, rq: Request) returns (out: seq<Out>, ghost moves: seq<Paced.Move>)
    requires Clocks.Positive(core.cfg.clock)
    modifies core
    ensures core.Reliable() && old(core.Synced()) ==>
              core.Synced()
              && Served(core.Machine(), old(core.Pace()), moves, core.Pace(), out,
                        InputOf(core.cfg, core.router.id, rq.call), core.now - old(core.now))
    ensures core.Answering() && old(core.Grounded()) ==> core.Grounded()
    ensures Kept(core, old(StockOf(core)), StockOf(core), rq.call.Maintain?)
    ensures Waited(old(core.StillWaits(rq.at)), rq, core.Answering(), core.Waits())
    ensures core.router.id == old(core.router.id)
  {
    hide Clocks.Positive, Clocks.Advance, NodeCore.Reliable, NodeCore.Answering, NodeCore.Forthright, NodeCore.Synced,
         NodeCore.Grounded, NodeCore.CatchUpMoves, NodeCore.CatchUpOut, NodeCore.CaughtClk, NodeCore.CaughtUp, Served,
         Kept, CapKept, Grows, NothingLost, Usage, Joined, Maintained, WireReceived, Honest, Node.HeldUnion, Claims,
         ClaimsElsewhere, RightElsewhere, Node.Subscribed, Node.Unsubscribed, Node.IngestedExt, Lift, Node.Route,
         Ingest, NoDeliveries, SparesAsked, Rt.NetworkAsk, NodeCore.StillWaits;
    var at := rq.at;
    ghost var m, p, stock := core.Machine(), core.Pace(), StockOf(core);
    ghost var mid := Paced.State(core.CaughtUp(at), core.StillWaits(at).pending);
    ghost var before, time := core.CatchUpOut(at), core.CaughtClk(at).now - core.now;
    ghost var well, tail := core.Reliable() && core.Synced(), [];
    CatchUpServed(core, at);
    moves := core.CatchUpMoves(at);
    NothingMore(m, p, moves, mid, before, time);
    match rq.call {
      case Wire(inc) =>
        out, tail := HandleWire(core, at, inc);
      case Append(k, op) =>
        var ok;
        ok, out := core.OnAppend(at, k, op);
        KeptAppending(core, stock, StockOf(core), k, op);
        if well {
          assert ok;
          AppendServed(m, p, moves, mid, before, time, k, op, core.pending);
          tail := [Paced.Act(Node.NativeSync(k, op))];
        }
      case Subscribe(c) =>
        out := core.OnSubscribe(at, c);
        KeptShrinking(core, stock, StockOf(core), false);
        SubscribeServed(m, p, moves, mid, before, time, c);
        tail := [Paced.Act(Node.Subscribe(c))];
      case Unsubscribe(c) =>
        out := core.OnUnsubscribe(at, c);
        KeptAtAll(core, stock, false);
        SubscribeServed(m, p, moves, mid, before, time, c);
        tail := [Paced.Act(Node.Unsubscribe(c))];
      case Hint(logs) =>
        out := core.OnHint(at, logs);
        KeptAtAll(core, stock, false);
      case Maintain =>
        out := core.OnMaintain(at);
        GrowsAtAll(core.ext);
        KeptShrinking(core, stock, StockOf(core), true);
        if well {
          tail := MaintainServed(m, p, moves, mid, before, time, core.cfg.evictThreshold, core.Abs());
        }
      case Wake =>
        out := core.CatchUp(at);
        KeptAtAll(core, stock, false);
    }
    moves := moves + tail;
  }

  predicate HasMaintain(requests: seq<Request>) {
    exists i :: 0 <= i < |requests| && requests[i].call.Maintain?
  }

  /** Any requests, one after the other. Without failures and from a synced state, the whole of it is one run of the
      node machine with its pushes put off: on exactly the messages taken in, appends and subscription changes, in
      that order, over exactly the time that has passed; what the machine emits is what was put out, and the node
      invariant is kept. Whatever fails, the application's store loses nothing, and without maintenance neither does
      the node; no append waits for longer than the cap after the oldest one that does; and if no call reports a
      failure, the snapshot stays grounded. */
  method Serve(core: NodeCore, requests: seq<Request>) returns (out: seq<Out>, ghost moves: seq<Paced.Move>)
    requires Clocks.Positive(core.cfg.clock)
    modifies core
    ensures core.Reliable() && old(core.Synced()) ==>
              core.Synced()
              && Served(core.Machine(), old(core.Pace()), moves, core.Pace(), out,
                        InputsOf(core.cfg, core.router.id, requests), core.now - old(core.now))
    ensures core.Reliable() && old(core.Synced()) && Paced.Inv(core.Machine(), old(core.Pace())) ==>
              Paced.Inv(core.Machine(), core.Pace())
    ensures core.Answering() && old(core.Grounded()) ==> core.Grounded()
    ensures Kept(core, old(StockOf(core)), StockOf(core), HasMaintain(requests))
    ensures Timely(core.cfg.clock, old(core.Waits()), requests, core.Answering(), core.Waits())
    ensures core.router.id == old(core.router.id)
  {
    hide Clocks.Positive, NodeCore.Reliable, NodeCore.Answering, NodeCore.Forthright, NodeCore.Synced,
         NodeCore.Grounded, NodeCore.Waits, Served, Kept, InputsOf, InputOf, HasMaintain, NodeCore.Pace, Paced.Inv, Timely,
         Waited;
    out, moves := [], [];
    ghost var p, now0: int, stock := core.Pace(), core.now, StockOf(core);
    ServedNone(core.Machine(), p);
    NoRequests(core.cfg, core.router.id);
    KeptAtAll(core, stock, HasMaintain([]));
    ghost var w := core.Waits();
    TimelyAtFirst(core.cfg.clock, w, core.Answering());
    assert requests[..0] == [];
    for i := 0 to |requests|
      invariant core.Reliable() && old(core.Synced()) ==>
                  core.Synced() && Served(core.Machine(), p, moves, core.Pace(), out,
                                          InputsOf(core.cfg, core.router.id, requests[..i]), core.now - now0)
      invariant core.Answering() && old(core.Grounded()) ==> core.Grounded()
      invariant Kept(core, stock, StockOf(core), HasMaintain(requests[..i]))
      invariant Timely(core.cfg.clock, w, requests[..i], core.Answering(), core.Waits())
      invariant core.router.id == old(core.router.id)
    {
      ghost var mid, now1: Time, stock1, w1 := core.Pace(), core.now, StockOf(core), core.Waits();
      var more; ghost var tail;
      more, tail := Handle(core, requests[i]);
      OneRequest(core.cfg, core.router.id, requests, i);
      TimelyNext(core.cfg.clock, w, requests, i, now1, core.Answering(), w1, core.Waits());
      KeptOn(core, stock, stock1, StockOf(core), HasMaintain(requests[..i]), requests[i].call.Maintain?);
      if core.Reliable() && old(core.Synced()) {
        ServedOn(core.Machine(), p, moves, mid, out, InputsOf(core.cfg, core.router.id, requests[..i]), now1 - now0, tail,
                 core.Pace(), more, InputOf(core.cfg, core.router.id, requests[i].call), core.now - now1);
      }
      out := out + more;
      moves := moves + tail;
    }
    assert requests[..|requests|] == requests;
    if core.Reliable() && old(core.Synced()) && Paced.Inv(core.Machine(), p) {
      ServedKeepsInv(core.Machine(), p, moves, core.Pace(), out, core.cfg, core.router.id, requests, core.now - now0);
    }
  }

  lemma {:induction false} NothingCollected(cfg: Config, id: NodeId, requests: seq<Request>)
    ensures forall a :: a in InputsOf(cfg, id, requests) ==> !a.AppGc?
  {
    hide TakesIn;
    if requests != [] {
      NothingCollected(cfg, id, requests[..|requests| - 1]);
    }
  }

  lemma ServedKeepsInv(m: Node.Machine, p: Paced.State, moves: seq<Paced.Move>, p': Paced.State, out: seq<Out>, cfg: Config,
                       id: NodeId, requests: seq<Request>, time: int)
    requires Served(m, p, moves, p', out, InputsOf(cfg, id, requests), time) && Paced.Inv(m, p)
    ensures Paced.Inv(m, p')
  {
    hide Paced.Inv, Paced.Run, Paced.Inputs, Paced.Elapsed, InputsOf, Lift;
    NothingCollected(cfg, id, requests);
    Paced.RunKeepsInv(m, p, moves);
  }

  lemma NoRequests(cfg: Config, id: NodeId)
    ensures InputsOf(cfg, id, []) == []
  {
  }

  lemma OneRequest(cfg: Config, id: NodeId, requests: seq<Request>, i: nat)
    requires i < |requests|
    ensures InputsOf(cfg, id, requests[..i + 1]) == InputsOf(cfg, id, requests[..i]) + InputOf(cfg, id, requests[i].call)
    ensures HasMaintain(requests[..i + 1]) <==> HasMaintain(requests[..i]) || requests[i].call.Maintain?
  {
    var some := requests[..i + 1];
    assert some[..|some| - 1] == requests[..i] && some[|some| - 1] == requests[i];
    if HasMaintain(requests[..i]) {
      var j :| 0 <= j < i && requests[..i][j].call.Maintain?;
      assert some[j] == requests[..i][j];
    }
    if HasMaintain(some) && !some[i].call.Maintain? {
      var j :| 0 <= j < |some| && some[j].call.Maintain?;
      assert requests[..i][j] == some[j];
    }
  }
}

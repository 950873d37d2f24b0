/** A network of nodes: broadcast, loss, duplication and reordering. */
module Network {
  import R = Ranges
  import opened Logs
  import Node
  import NM = NodeMachine
  import G = Graphs

  /** A message on its way to one node. */
  datatype Flight = Flight(to: NodeId, message: Node.Message)

  datatype Config = Config(topology: G.Graph, machine: Node.Machine, cap: nat)

  /** The in-flight messages are a multiset: delivery order is a choice, and duplicates count. */
  datatype State = State(nodes: map<NodeId, Node.State>, inflight: multiset<Flight>)

  datatype Action =
    | NodeAct(id: NodeId, action: Node.Action)
    | Deliver(flight: Flight)
    | Drop(flight: Flight)
    | Duplicate(flight: Flight)

  function Neighbors(g: G.Graph, n: NodeId): set<NodeId> {
    if n in g then g[n] else {}
  }

  /** One flight per neighbour. */
  function Copies(peers: set<NodeId>, message: Node.Message): (r: set<Flight>)
    ensures forall f :: f in r <==> f.to in peers && f.message == message
  {
    var r := set n | n in peers :: Flight(n, message);
    assert forall f :: f in r <==> f.to in peers && f.message == message by {
      forall f: Flight ensures f in r <==> f.to in peers && f.message == message {
        assert f == Flight(f.to, f.message);
      }
    }
    r
  }

  /** What a node's effects put in flight. */
  function Expand(peers: set<NodeId>, fx: seq<Node.Effect>): multiset<Flight> {
    if fx == [] then multiset{}
    else (if fx[0].Broadcast? then multiset(Copies(peers, fx[0].message)) else multiset{}) + Expand(peers, fx[1..])
  }

  /** The effects that pass through. */
  function PassThrough(id: NodeId, fx: seq<Node.Effect>): seq<(NodeId, Node.Effect)> {
    if fx == [] then []
    else (if fx[0].Broadcast? then [] else [(id, fx[0])]) + PassThrough(id, fx[1..])
  }

  /** What one step did: who acted, if anyone, and the effects of its node action. */
  datatype Trace = Trace(id: NodeId, fx: seq<Node.Effect>)

  /** One node acts; refused when an insertion would exceed the cap. */
  ghost function ActOn(cfg: Config, s: State, id: NodeId, a: Node.Action): R.Option<(State, Trace)> {
    if id !in s.nodes then R.None
    else
      match Node.Step(cfg.machine, s.nodes[id], a)
      case None => R.None
      case Some(p) =>
        var added := Expand(Neighbors(cfg.topology, id), p.1);
        if added != multiset{} && cfg.cap < |s.inflight + added| then R.None
        else R.Some((State(s.nodes[id := p.0], s.inflight + added), Trace(id, p.1)))
  }

  ghost function Step(cfg: Config, s: State, a: Action): R.Option<(State, Trace)> {
    match a
    case NodeAct(id, na) => if na.Recv? then R.None else ActOn(cfg, s, id, na)
    case Deliver(f) =>
      if f !in s.inflight then R.None
      else ActOn(cfg, s.(inflight := s.inflight - multiset{f}), f.to, Node.Recv(f.message))
    case Drop(f) =>
      if f !in s.inflight then R.None
      else R.Some((s.(inflight := s.inflight - multiset{f}), Trace(f.to, [])))
    case Duplicate(f) =>
      if f !in s.inflight || cfg.cap <= |s.inflight| then R.None
      else R.Some((s.(inflight := s.inflight + multiset{f}), Trace(f.to, [])))
  }

  // ---- What each step does ----

  /** How often the effects broadcast a message. */
  function Broadcasts(fx: seq<Node.Effect>, message: Node.Message): nat {
    if fx == [] then 0 else (if fx[0] == Node.Broadcast(message) then 1 else 0) + Broadcasts(fx[1..], message)
  }

  /** Every neighbour is sent each broadcast once, and nobody else anything. */
  lemma {:induction false} ExpandCounts(peers: set<NodeId>, fx: seq<Node.Effect>, f: Flight)
    ensures Expand(peers, fx)[f] == if f.to in peers then Broadcasts(fx, f.message) else 0
  {
    if fx != [] {
      ExpandCounts(peers, fx[1..], f);
    }
  }

  /** What is no broadcast is reported once each time, in its node's name, and nothing else is. */
  lemma {:induction false} PassesThrough(id: NodeId, fx: seq<Node.Effect>, n: NodeId, e: Node.Effect)
    ensures multiset(PassThrough(id, fx))[(n, e)] == if n == id && !e.Broadcast? then multiset(fx)[e] else 0
  {
    if fx != [] {
      PassesThrough(id, fx[1..], n, e);
      assert fx == [fx[0]] + fx[1..];
    }
  }

  /** Who may have acted, and on what: the node whose action it is, or the one a message arrives at. */
  function ActionOf(a: Action): R.Option<(NodeId, Node.Action)> {
    match a
    case NodeAct(id, na) => R.Some((id, na))
    case Deliver(f) => R.Some((f.to, Node.Recv(f.message)))
    case _ => R.None
  }

  /** A delivery or a loss takes its flight out, a repetition adds one more of it; whoever acts adds what it
      broadcasts, once per neighbour, and takes the step its machine takes; all other flights and nodes stay. */
  lemma StepFlights(cfg: Config, s: State, a: Action, s': State, t: Trace, f: Flight)
    requires Step(cfg, s, a) == R.Some((s', t))
    ensures s'.inflight[f] == s.inflight[f]
                              - (if (a.Deliver? || a.Drop?) && a.flight == f then 1 else 0)
                              + (if a.Duplicate? && a.flight == f then 1 else 0)
                              + (if ActionOf(a).Some? && f.to in Neighbors(cfg.topology, t.id)
                                 then Broadcasts(t.fx, f.message) else 0)
    ensures match ActionOf(a)
            case None => s'.nodes == s.nodes && t.fx == []
            case Some(act) => t.id == act.0 && act.0 in s.nodes && s'.nodes == s.nodes[act.0 := s'.nodes[act.0]]
                              && Node.Step(cfg.machine, s.nodes[act.0], act.1) == R.Some((s'.nodes[act.0], t.fx))
  {
    hide Node.Step, Expand, Broadcasts, Neighbors;
    ExpandCounts(Neighbors(cfg.topology, t.id), t.fx, f);
  }

  /** A step is refused exactly when its flight is not under way, its node is not there or refuses it, a receipt has
      no flight, or what it puts under way does not fit the cap. */
  lemma StepsIffPossible(cfg: Config, s: State, a: Action)
    ensures Step(cfg, s, a).Some? <==>
              && (!a.NodeAct? ==> a.flight in s.inflight)
              && (a.NodeAct? ==> !a.action.Recv?)
              && (a.Duplicate? ==> |s.inflight| < cfg.cap)
              && (ActionOf(a).Some? ==> ActFits(cfg, s, a, ActionOf(a).value.0, ActionOf(a).value.1))
  {
    hide Node.Step, Expand, Neighbors;
    if a.Deliver? && a.flight in s.inflight {
      var left := s.inflight - multiset{a.flight};
      assert s.inflight == left + multiset{a.flight};
    }
  }

  /** The node takes the action, and what it broadcasts fits in beside what stays under way. */
  ghost predicate ActFits(cfg: Config, s: State, a: Action, id: NodeId, na: Node.Action) {
    id in s.nodes && Node.Step(cfg.machine, s.nodes[id], na).Some?
    && var added := |Expand(Neighbors(cfg.topology, id), Node.Step(cfg.machine, s.nodes[id], na).value.1)|;
    added == 0 || |s.inflight| - (if a.Deliver? then 1 else 0) + added <= cfg.cap
  }

  // ---- Runs ----

  datatype Run = Run(states: seq<State>, actions: seq<Action>, traces: seq<Trace>)

  ghost predicate StepAt(cfg: Config, run: Run, i: nat) {
    i < |run.actions| && i < |run.traces| && i + 1 < |run.states|
    && Step(cfg, run.states[i], run.actions[i]) == R.Some((run.states[i + 1], run.traces[i]))
  }

  ghost predicate IsRun(cfg: Config, run: Run) {
    && |run.states| == |run.actions| + 1 && |run.traces| == |run.actions|
    && forall i: nat :: i < |run.actions| ==> StepAt(cfg, run, i)
  }

  // ---- The in-place machine ----

  /** The machine as it runs: in-flight messages in one sorted list, addressed by position. `key` is
      any injective ranking, standing for the derived order on flights. */
  class Net {
    const cfg: Config
    const key: Flight -> real
    var nodes: map<NodeId, Node.State>
    var inflight: seq<Flight>

    ghost predicate Sorted() reads this {
      SortedBy(key, inflight)
    }

    ghost function Abs(): State reads this {
      State(nodes, multiset(inflight))
    }

    constructor (cfg: Config, key: Flight -> real, nodes: map<NodeId, Node.State>)
      ensures Sorted() && Abs() == State(nodes, multiset{})
      ensures this.cfg == cfg && this.key == key
    {
      this.cfg := cfg;
      this.key := key;
      this.nodes := nodes;
      this.inflight := [];
    }

    /** `insert_sorted`: by binary search, so equal states have equal lists. */
    method InsertSorted(f: Flight)
      requires Sorted()
      modifies this`inflight
      ensures Sorted() && multiset(inflight) == old(multiset(inflight)) + multiset{f}
    {
      var s := inflight;
      assert SortedBy(key, s);
      var lo, hi := 0, |s|;
      hide SortedBy;
      while lo < hi
        invariant 0 <= lo <= hi <= |s| && GoesBetween(key, s, lo, hi, f)
      {
        var mid := (lo + hi) / 2;
        GoesInHalf(key, s, lo, hi, mid, f);
        if key(s[mid]) <= key(f) {
          lo := mid + 1;
        } else {
          hi := mid;
        }
      }
      hide GoesBetween;
      InsertedAt(key, s, lo, f);
      inflight := s[..lo] + [f] + s[lo..];
    }

    /** `take_flight`: fails beyond the end. */
    method TakeFlight(i: nat) returns (f: R.Option<Flight>)
      requires Sorted()
      modifies this`inflight
      ensures Sorted()
      ensures i < |old(inflight)| ==> f == R.Some(old(inflight)[i])
                                      && multiset(inflight) == old(multiset(inflight)) - multiset{old(inflight)[i]}
      ensures i >= |old(inflight)| ==> f == R.None && inflight == old(inflight)
    {
      if i >= |inflight| {
        return R.None;
      }
      f := R.Some(inflight[i]);
      assert inflight == inflight[..i] + [inflight[i]] + inflight[i + 1..];
      inflight := inflight[..i] + inflight[i + 1..];
    }

    /** Broadcast one message to every neighbour, refusing at the cap. */
    method Broadcast(peers: set<NodeId>, message: Node.Message) returns (ok: bool)
      requires Sorted()
      modifies this`inflight
      ensures Sorted()
      ensures ok <==> peers == {} || |old(inflight)| + |peers| <= cfg.cap
      ensures ok ==> multiset(inflight) == old(multiset(inflight)) + multiset(Copies(peers, message))
      ensures ok ==> |inflight| == |old(inflight)| + |peers|
    {
      var todo := peers;
      ghost var done: set<NodeId> := {};
      ghost var sent: multiset<Flight> := multiset{};
      CopiesEmpty(message);
      hide Copies;
      while todo != {}
        invariant forall x :: x in peers <==> x in done || x in todo
        invariant forall x :: x in done ==> x !in todo
        invariant |peers| == |done| + |todo|
        invariant Sorted()
        invariant sent == multiset(Copies(done, message)) && |sent| == |done|
        invariant multiset(inflight) == old(multiset(inflight)) + sent
        invariant |inflight| == |old(inflight)| + |done|
        invariant done != {} ==> |inflight| <= cfg.cap
      {
        var n :| n in todo;
        if |inflight| >= cfg.cap {
          return false;
        }
        CopiesAdd(done, n, message);
        InsertSorted(Flight(n, message));
        sent := sent + multiset{Flight(n, message)};
        SameSize(inflight, old(inflight), sent);
        assert |todo - {n}| == |todo| - 1 && |done + {n}| == |done| + 1;
        todo := todo - {n};
        done := done + {n};
      }
      assert done == peers;
      return true;
    }

    /** Absorb a node's effects: every broadcast goes in flight, the rest passes through. */
    method Absorb(id: NodeId, fx: seq<Node.Effect>) returns (ok: bool, out: seq<(NodeId, Node.Effect)>)
      requires Sorted()
      modifies this`inflight
      ensures Sorted()
      ensures ok <==> Expand(Neighbors(cfg.topology, id), fx) == multiset{}
                      || |old(inflight)| + |Expand(Neighbors(cfg.topology, id), fx)| <= cfg.cap
      ensures ok ==> multiset(inflight) == old(multiset(inflight)) + Expand(Neighbors(cfg.topology, id), fx)
      ensures ok ==> out == PassThrough(id, fx)
      decreases |fx|
    {
      if fx == [] {
        return true, [];
      }
      var peers := Neighbors(cfg.topology, id);
      var first := [];
      ghost var sent: multiset<Flight> := multiset{};
      if fx[0].Broadcast? {
        CopiesSize(peers, fx[0].message);
        sent := multiset(Copies(peers, fx[0].message));
        ok := Broadcast(peers, fx[0].message);
        if !ok {
          return false, [];
        }
        SameSize(inflight, old(inflight), sent);
      } else {
        first := [(id, fx[0])];
      }
      hide Copies;
      label first:
      var rest;
      ok, rest := Absorb(id, fx[1..]);
      out := first + rest;
      assert Expand(peers, fx) == sent + Expand(peers, fx[1..]);
    }

    /** Apply one node action. */
    method Apply(id: NodeId, a: Node.Action) returns (ok: bool, out: seq<(NodeId, Node.Effect)>)
      requires Sorted()
      modifies this`inflight, this`nodes
      ensures Sorted()
      ensures ok <==> ActOn(cfg, old(Abs()), id, a).Some?
      ensures ok ==> Abs() == ActOn(cfg, old(Abs()), id, a).value.0
      ensures ok ==> out == PassThrough(id, ActOn(cfg, old(Abs()), id, a).value.1.fx)
    {
      hide Node.Step;
      out := [];
      if id !in nodes {
        return false, [];
      }
      var verdict := NM.Transition(cfg.machine, nodes[id], a);
      if verdict.None? {
        return false, [];
      }
      ok, out := Absorb(id, verdict.value.1);
      assert |multiset(old(inflight))| == |old(inflight)|;
      nodes := nodes[id := verdict.value.0];
    }

    /** A node acts on its own: anything but a receipt. */
    method Act(id: NodeId, a: Node.Action) returns (ok: bool, out: seq<(NodeId, Node.Effect)>)
      requires Sorted()
      modifies this`inflight, this`nodes
      ensures Sorted()
      ensures ok <==> Step(cfg, old(Abs()), NodeAct(id, a)).Some?
      ensures ok ==> Abs() == Step(cfg, old(Abs()), NodeAct(id, a)).value.0
      ensures ok ==> out == PassThrough(id, Step(cfg, old(Abs()), NodeAct(id, a)).value.1.fx)
    {
      hide ActOn;
      if a.Recv? {
        return false, [];
      }
      ok, out := Apply(id, a);
    }

    /** Deliver the message at position `i`. */
    method Deliver(i: nat) returns (ok: bool, out: seq<(NodeId, Node.Effect)>)
      requires Sorted()
      modifies this`inflight, this`nodes
      ensures Sorted()
      ensures ok <==> i < |old(inflight)| && Step(cfg, old(Abs()), Action.Deliver(old(inflight)[i])).Some?
      ensures ok ==> Abs() == Step(cfg, old(Abs()), Action.Deliver(old(inflight)[i])).value.0
      ensures ok ==> out == PassThrough(old(inflight)[i].to, Step(cfg, old(Abs()), Action.Deliver(old(inflight)[i])).value.1.fx)
    {
      hide Node.Step;
      out := [];
      if i < |inflight| {
        assert inflight[i] in multiset(inflight);
      }
      var f := TakeFlight(i);
      if f.None? {
        return false, [];
      }
      ok, out := Apply(f.value.to, Node.Recv(f.value.message));
    }

    /** Lose the message at position `i`. */
    method Drop(i: nat) returns (ok: bool)
      requires Sorted()
      modifies this`inflight
      ensures Sorted()
      ensures ok <==> i < |old(inflight)|
      ensures ok ==> Step(cfg, old(Abs()), Action.Drop(old(inflight)[i])).Some?
                     && Abs() == Step(cfg, old(Abs()), Action.Drop(old(inflight)[i])).value.0
    {
      if i < |inflight| {
        assert inflight[i] in multiset(inflight);
      }
      var f := TakeFlight(i);
      ok := f.Some?;
    }

    /** Duplicate the message at position `i`. */
    method Duplicate(i: nat) returns (ok: bool)
      requires Sorted()
      modifies this`inflight
      ensures Sorted()
      ensures ok <==> i < |old(inflight)| < cfg.cap
      ensures ok ==> Step(cfg, old(Abs()), Action.Duplicate(old(inflight)[i])).Some?
                     && Abs() == Step(cfg, old(Abs()), Action.Duplicate(old(inflight)[i])).value.0
    {
      if |inflight| >= cfg.cap || i >= |inflight| {
        return false;
      }
      assert inflight[i] in multiset(inflight);
      InsertSorted(inflight[i]);
      return true;
    }
  }

  // ---- One list for each multiset ----

  ghost predicate SortedBy(key: Flight -> real, s: seq<Flight>) {
    forall i, j :: 0 <= i < j < |s| ==> key(s[i]) <= key(s[j])
  }

  /** Nothing before `lo` is above `f`, and nothing from `hi` on below. */
  ghost predicate GoesBetween(key: Flight -> real, s: seq<Flight>, lo: nat, hi: nat, f: Flight) {
    && (forall i :: 0 <= i < lo && i < |s| ==> key(s[i]) <= key(f))
    && (forall i :: hi <= i < |s| ==> key(f) <= key(s[i]))
  }

  lemma GoesInHalf(key: Flight -> real, s: seq<Flight>, lo: nat, hi: nat, mid: nat, f: Flight)
    requires SortedBy(key, s) && lo <= mid < hi <= |s| && GoesBetween(key, s, lo, hi, f)
    ensures if key(s[mid]) <= key(f) then GoesBetween(key, s, mid + 1, hi, f) else GoesBetween(key, s, lo, mid, f)
  {
  }

  lemma InsertedAt(key: Flight -> real, s: seq<Flight>, at: nat, f: Flight)
    requires SortedBy(key, s) && at <= |s| && GoesBetween(key, s, at, at, f)
    ensures SortedBy(key, s[..at] + [f] + s[at..])
    ensures multiset(s[..at] + [f] + s[at..]) == multiset(s) + multiset{f}
  {
    assert s == s[..at] + s[at..];
  }

  lemma HeadIsLeast(key: Flight -> real, s: seq<Flight>)
    requires SortedBy(key, s) && s != []
    ensures SortedBy(key, s[1..]) && s == [s[0]] + s[1..]
    ensures forall f :: f in s ==> key(s[0]) <= key(f)
  {
  }

  /** Equal states have equal lists: under a ranking that tells flights apart, a multiset has one sorted
      list. */
  lemma {:induction false} SortedUnique(key: Flight -> real, a: seq<Flight>, b: seq<Flight>)
    requires SortedBy(key, a) && SortedBy(key, b) && multiset(a) == multiset(b)
    requires forall f, g :: key(f) == key(g) ==> f == g
    ensures a == b
  {
    assert |multiset(a)| == |a| && |multiset(b)| == |b|;
    if a != [] {
      SameHead(key, a, b);
      TailMultiset(a);
      TailMultiset(b);
      SortedUnique(key, a[1..], b[1..]);
    }
  }

  lemma TailMultiset(s: seq<Flight>)
    requires s != []
    ensures multiset(s[1..]) == multiset(s) - multiset{s[0]}
    ensures s == [s[0]] + s[1..]
  {
    assert s == [s[0]] + s[1..];
  }

  lemma SameHead(key: Flight -> real, a: seq<Flight>, b: seq<Flight>)
    requires SortedBy(key, a) && SortedBy(key, b) && multiset(a) == multiset(b) && a != [] && b != []
    requires forall f, g :: key(f) == key(g) ==> f == g
    ensures a[0] == b[0] && SortedBy(key, a[1..]) && SortedBy(key, b[1..])
  {
    HeadIsLeast(key, a);
    HeadIsLeast(key, b);
    assert a[0] in multiset(a) && b[0] in multiset(b);
  }

  // ---- Counting flights ----

  lemma CopiesEmpty(message: Node.Message)
    ensures Copies({}, message) == {}
  {
  }

  lemma CopiesAdd(done: set<NodeId>, n: NodeId, message: Node.Message)
    requires n !in done
    ensures multiset(Copies(done + {n}, message)) == multiset(Copies(done, message)) + multiset{Flight(n, message)}
  {
    assert Copies(done + {n}, message) == Copies(done, message) + {Flight(n, message)};
    assert Flight(n, message) !in Copies(done, message);
  }

  lemma {:induction false} CopiesSize(peers: set<NodeId>, message: Node.Message)
    ensures |multiset(Copies(peers, message))| == |peers|
    decreases peers
  {
    if peers == {} {
      CopiesEmpty(message);
    } else {
      var n :| n in peers;
      CopiesSize(peers - {n}, message);
      CopiesAdd(peers - {n}, n, message);
      assert peers - {n} + {n} == peers;
    }
  }

  lemma SameSize(a: seq<Flight>, b: seq<Flight>, added: multiset<Flight>)
    requires multiset(a) == multiset(b) + added
    ensures |a| == |b| + |added|
  {
    assert |multiset(a)| == |a| && |multiset(b)| == |b|;
  }

  /** The messages broadcast, in order. */
  function Sent(fx: seq<Node.Effect>): seq<Node.Message> {
    if fx == [] then []
    else (if fx[0].Broadcast? then [fx[0].message] else []) + Sent(fx[1..])
  }

  lemma {:induction false} SentConcat(a: seq<Node.Effect>, b: seq<Node.Effect>)
    ensures Sent(a + b) == Sent(a) + Sent(b)
  {
    if a == [] {
      assert a + b == b;
    } else {
      SentConcat(a[1..], b);
      var first := if a[0].Broadcast? then [a[0].message] else [];
      assert (a + b)[0] == a[0] && (a + b)[1..] == a[1..] + b;
      Associates(first, Sent(a[1..]), Sent(b));
    }
  }

  lemma Associates<T>(a: seq<T>, b: seq<T>, c: seq<T>)
    ensures a + b + c == a + (b + c)
  {
  }

  lemma OneMore(a: nat, b: nat)
    ensures a * (1 + b) == a + a * b
  {
  }

  /** One flight per neighbour and message. */
  lemma {:induction false} ExpandSize(peers: set<NodeId>, fx: seq<Node.Effect>)
    ensures |Expand(peers, fx)| == |peers| * |Sent(fx)|
    ensures forall f :: f in Expand(peers, fx) ==> f.message in Sent(fx)
  {
    if fx != [] {
      ExpandSize(peers, fx[1..]);
      if fx[0].Broadcast? {
        CopiesSize(peers, fx[0].message);
        OneMore(|peers|, |Sent(fx[1..])|);
        assert Expand(peers, fx) == multiset(Copies(peers, fx[0].message)) + Expand(peers, fx[1..]);
        hide Copies;
        assert Sent(fx) == [fx[0].message] + Sent(fx[1..]);
      } else {
        assert Sent(fx) == Sent(fx[1..]);
      }
    }
  }
}

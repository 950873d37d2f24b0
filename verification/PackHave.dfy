/** Splitting hydrated ops into Haves that each fit a byte budget. */
module PackHave {
  import opened Logs
  import opened Storage
  import LR = LogRanges
  import Node
  import opened Hydrate

  /** The encoded length of a Have over some ops. */
  type Size = seq<Item> -> nat

  /** More ops in front never make the last one cheaper. */
  ghost predicate Grows(size: Size) {
    forall b: seq<Item>, x: Item :: size([x]) <= size(b + [x])
  }

  function Bare(x: Item): Item {
    x.(op := StripPayload(x.op))
  }

  /** What is sent of one op: all of it, else its header, else nothing. */
  function Sendable(size: Size, budget: nat, x: Item): seq<Item> {
    if size([x]) <= budget then [x]
    else if size([Bare(x)]) <= budget then [Bare(x)]
    else []
  }

  function {:tailrecursion false} AllSendable(size: Size, budget: nat, ops: seq<Item>): seq<Item> {
    if ops == [] then []
    else AllSendable(size, budget, ops[..|ops| - 1]) + Sendable(size, budget, ops[|ops| - 1])
  }

  /** How many ops cannot be sent at all. */
  function {:tailrecursion false} Unsendable(size: Size, budget: nat, ops: seq<Item>): nat {
    if ops == [] then 0
    else
      Unsendable(size, budget, ops[..|ops| - 1]) + if Sendable(size, budget, ops[|ops| - 1]) == [] then 1 else 0
  }

  function {:tailrecursion false} Concat(frames: seq<seq<Item>>): seq<Item> {
    if frames == [] then [] else Concat(frames[..|frames| - 1]) + frames[|frames| - 1]
  }

  lemma ConcatSnoc(frames: seq<seq<Item>>, f: seq<Item>)
    ensures Concat(frames + [f]) == Concat(frames) + f
  {
    assert (frames + [f])[..|frames|] == frames;
  }

  ghost predicate FrameFits(size: Size, budget: nat, f: seq<Item>) {
    f != [] && size(f) <= budget
  }

  /** `frames[k]` was closed because `ops[cuts[k]]`, the next op, did not fit behind it. */
  ghost predicate Greedy(size: Size, budget: nat, ops: seq<Item>, frames: seq<seq<Item>>, cuts: seq<nat>) {
    |cuts| == |frames| &&
    forall k :: 0 <= k < |frames| ==> CutBefore(size, budget, ops, frames, k, cuts[k])
  }

  ghost predicate CutBefore(size: Size, budget: nat, ops: seq<Item>, frames: seq<seq<Item>>, k: nat, next: nat)
    requires k < |frames|
  {
    && next < |ops|
    && Concat(frames[..k + 1]) == AllSendable(size, budget, ops[..next])
    && budget < size(frames[k] + [ops[next]])
  }

  /** The state of the packing loop before op `i`. */
  ghost predicate Packing(size: Size, budget: nat, ops: seq<Item>, i: nat, frames: seq<seq<Item>>, batch: seq<Item>,
                          dropped: nat, cuts: seq<nat>)
  {
    && i <= |ops|
    && Concat(frames) + batch == AllSendable(size, budget, ops[..i])
    && dropped == Unsendable(size, budget, ops[..i])
    && (batch != [] ==> FrameFits(size, budget, batch))
    && (forall k :: 0 <= k < |frames| ==> FrameFits(size, budget, frames[k]))
    && Greedy(size, budget, ops, frames, cuts)
  }

  lemma Begin(size: Size, budget: nat, ops: seq<Item>)
    ensures Packing(size, budget, ops, 0, [], [], 0, [])
  {
  }

  /** The next op joins the batch. */
  lemma Joins(size: Size, budget: nat, ops: seq<Item>, i: nat, frames: seq<seq<Item>>, batch: seq<Item>,
              dropped: nat, cuts: seq<nat>)
    requires Grows(size) && Packing(size, budget, ops, i, frames, batch, dropped, cuts) && i < |ops|
    requires size(batch + [ops[i]]) <= budget
    ensures Packing(size, budget, ops, i + 1, frames, batch + [ops[i]], dropped, cuts)
  {
    hide Greedy, Concat;
    assert size([ops[i]]) <= size(batch + [ops[i]]);
    assert ops[..i + 1][..i] == ops[..i];
    assert Concat(frames) + (batch + [ops[i]]) == Concat(frames) + batch + [ops[i]];
  }

  /** The next op closes the batch. */
  lemma Closes(size: Size, budget: nat, ops: seq<Item>, i: nat, frames: seq<seq<Item>>, batch: seq<Item>,
               dropped: nat, cuts: seq<nat>)
    requires Packing(size, budget, ops, i, frames, batch, dropped, cuts) && i < |ops|
    requires budget < size(batch + [ops[i]]) && batch != []
    ensures Packing(size, budget, ops, i, frames + [batch], [], dropped, cuts + [i])
  {
    hide AllSendable, Unsendable;
    ConcatSnoc(frames, batch);
    CutFrame(size, budget, ops, frames, cuts, batch, i);
    hide Greedy, FrameFits, Concat;
    assert Concat(frames + [batch]) + [] == Concat(frames + [batch]);
  }

  /** The next op starts a batch, whole or bare, or is dropped. */
  lemma Starts(size: Size, budget: nat, ops: seq<Item>, i: nat, frames: seq<seq<Item>>, dropped: nat, cuts: seq<nat>)
    requires Packing(size, budget, ops, i, frames, [], dropped, cuts) && i < |ops|
    ensures var batch := Sendable(size, budget, ops[i]);
            Packing(size, budget, ops, i + 1, frames, batch, dropped + if batch == [] then 1 else 0, cuts)
  {
    hide Greedy, Concat;
    assert ops[..i + 1][..i] == ops[..i];
  }

  lemma CutFrame(size: Size, budget: nat, ops: seq<Item>, frames: seq<seq<Item>>, cuts: seq<nat>, batch: seq<Item>, i: nat)
    requires Greedy(size, budget, ops, frames, cuts) && i < |ops|
    requires Concat(frames) + batch == AllSendable(size, budget, ops[..i])
    requires budget < size(batch + [ops[i]])
    ensures Greedy(size, budget, ops, frames + [batch], cuts + [i])
  {
    ConcatSnoc(frames, batch);
    hide Concat, AllSendable;
    var all := frames + [batch];
    assert all[..|frames| + 1] == all;
    forall k | 0 <= k < |frames| ensures all[..k + 1] == frames[..k + 1] && all[k] == frames[k] {
    }
  }

  /** The end: what is left of the batch is the last frame. */
  lemma Ends(size: Size, budget: nat, ops: seq<Item>, frames: seq<seq<Item>>, batch: seq<Item>, dropped: nat,
             cuts: seq<nat>)
    requires Packing(size, budget, ops, |ops|, frames, batch, dropped, cuts)
    ensures var all := if batch == [] then frames else frames + [batch];
            && Concat(all) == AllSendable(size, budget, ops)
            && dropped == Unsendable(size, budget, ops)
            && (forall k :: 0 <= k < |all| ==> FrameFits(size, budget, all[k]))
            && (all != [] ==> |all| - 1 <= |cuts| && Greedy(size, budget, ops, all[..|all| - 1], cuts[..|all| - 1]))
  {
    hide AllSendable, Unsendable;
    assert ops[..|ops|] == ops;
    if batch != [] {
      ConcatSnoc(frames, batch);
      assert (frames + [batch])[..|frames|] == frames && cuts[..|frames|] == cuts;
    } else {
      assert Concat(frames) + [] == Concat(frames);
      if frames != [] {
        DropCut(size, budget, ops, frames, cuts);
      }
    }
  }

  lemma DropCut(size: Size, budget: nat, ops: seq<Item>, frames: seq<seq<Item>>, cuts: seq<nat>)
    requires Greedy(size, budget, ops, frames, cuts) && frames != []
    ensures Greedy(size, budget, ops, frames[..|frames| - 1], cuts[..|frames| - 1])
  {
    hide Concat, AllSendable;
    var front := frames[..|frames| - 1];
    forall k | 0 <= k < |front| ensures front[..k + 1] == frames[..k + 1] && front[k] == frames[k] {
    }
  }

  lemma {:induction false} FittingOps(size: Size, budget: nat, ops: seq<Item>)
    requires forall x :: x in ops ==> size([x]) <= budget
    ensures AllSendable(size, budget, ops) == ops && Unsendable(size, budget, ops) == 0
  {
    if ops != [] {
      FittingOps(size, budget, ops[..|ops| - 1]);
      assert ops == ops[..|ops| - 1] + [ops[|ops| - 1]];
    }
  }

  /** An op is missing only if its header alone is too big, and header-only beyond what was held only if it
      is too big alone. */
  lemma {:induction false} WhatIsSent(size: Size, budget: nat, ops: seq<Item>, x: Item)
    requires x in ops
    ensures size([x]) <= budget ==> x in AllSendable(size, budget, ops)
    ensures size([x]) > budget && size([Bare(x)]) <= budget ==> Bare(x) in AllSendable(size, budget, ops)
    ensures |AllSendable(size, budget, ops)| + Unsendable(size, budget, ops) == |ops|
  {
    var front := ops[..|ops| - 1];
    if x in front {
      WhatIsSent(size, budget, front, x);
    } else if front != [] {
      WhatIsSent(size, budget, front, front[0]);
    }
  }

  /** `pack_have`: the frames hold, in order and without repetition, everything of each op that can be sent
      alone; each fits; a frame ends only where the next op would overflow it; what cannot be sent is
      counted. */
  method PackHave(size: Size, ops: seq<Item>, budget: nat)
    returns (frames: seq<seq<Item>>, dropped: nat, ghost cuts: seq<nat>)
    requires Grows(size)
    ensures Concat(frames) == AllSendable(size, budget, ops)
    ensures dropped == Unsendable(size, budget, ops)
    ensures forall k :: 0 <= k < |frames| ==> FrameFits(size, budget, frames[k])
    ensures frames != [] ==> Greedy(size, budget, ops, frames[..|frames| - 1], cuts)
  {
    frames, dropped, cuts := [], 0, [];
    var batch: seq<Item> := [];
    hide Packing, AllSendable, Unsendable, Concat, FrameFits, Greedy;
    Begin(size, budget, ops);
    for i := 0 to |ops|
      invariant Packing(size, budget, ops, i, frames, batch, dropped, cuts)
    {
      var x := ops[i];
      if size(batch + [x]) <= budget {
        Joins(size, budget, ops, i, frames, batch, dropped, cuts);
        batch := batch + [x];
        continue;
      }
      if batch != [] {
        Closes(size, budget, ops, i, frames, batch, dropped, cuts);
        frames := frames + [batch];
        cuts := cuts + [i];
        batch := [];
      }
      Starts(size, budget, ops, i, frames, dropped, cuts);
      var last := x;
      if size([last]) > budget {
        last := Bare(last);
        if size([last]) > budget {
          dropped := dropped + 1;
          continue;
        }
      }
      batch := [last];
    }
    Ends(size, budget, ops, frames, batch, dropped, cuts);
    if batch != [] {
      frames := frames + [batch];
    }
    cuts := if frames == [] then [] else cuts[..|frames| - 1];
  }

  // ---- The whole way from the stores to the wire ----

  function {:tailrecursion false} FlattenAll(messages: seq<seq<Group>>): seq<Item> {
    if messages == [] then []
    else FlattenAll(messages[..|messages| - 1]) + Flatten(messages[|messages| - 1])
  }

  /** Hydrating and packing conserve ops: the grouped messages flatten to the hydrated ops in key order, each in
      full unless it is too big alone. */
  method HydrateAndPack(relay: OpsMap, ext: OpsMap, r: LR.LogRanges, size: Size, budget: nat)
    returns (messages: seq<seq<Group>>, dropped: nat)
    requires Grows(size)
    ensures FlattenAll(messages) == AllSendable(size, budget, Listing(Node.Hydrated(relay, ext, r)))
    ensures dropped == Unsendable(size, budget, Listing(Node.Hydrated(relay, ext, r)))
    ensures forall i :: 0 <= i < |messages| ==>
              Grouped(messages[i]) && FrameFits(size, budget, Flatten(messages[i]))
  {
    hide AllSendable, Unsendable, FrameFits, Greedy, Flatten, Grouped, Lists, Listing, Within, Node.Hydrated,
         FlattenAll, Concat;
    var fromRelay := FetchOps(relay, r);
    var fromExt := FetchOps(ext, r);
    var ops := Merge(relay, ext, r, fromRelay, fromExt);
    var frames;
    ghost var cuts;
    frames, dropped, cuts := PackHave(size, ops, budget);
    messages := [];
    NoMessages(frames);
    for i := 0 to |frames|
      invariant |messages| == i && FlattenAll(messages) == Concat(frames[..i])
      invariant forall j :: 0 <= j < i ==> Grouped(messages[j]) && Flatten(messages[j]) == frames[j]
    {
      var groups := GroupOps(frames[i]);
      FlattenAllSnoc(messages, groups);
      ConcatSnoc(frames[..i], frames[i]);
      assert frames[..i + 1] == frames[..i] + [frames[i]];
      messages := messages + [groups];
    }
    assert frames[..|frames|] == frames;
  }

  lemma NoMessages(frames: seq<seq<Item>>)
    ensures FlattenAll([]) == Concat(frames[..0])
  {
  }

  lemma FlattenAllSnoc(messages: seq<seq<Group>>, groups: seq<Group>)
    ensures FlattenAll(messages + [groups]) == FlattenAll(messages) + Flatten(groups)
  {
    assert (messages + [groups])[..|messages|] == messages;
  }

  /** When every op fits alone, what the receivers park of all the messages is what was hydrated. */
  lemma PackedHaveRoundTrip(relay: OpsMap, ext: OpsMap, r: LR.LogRanges, size: Size, budget: nat, flat: seq<Item>)
    requires flat == AllSendable(size, budget, Listing(Node.Hydrated(relay, ext, r)))
    requires forall x :: x in Listing(Node.Hydrated(relay, ext, r)) ==> size([x]) <= budget
    ensures Parked(flat) == Node.Hydrated(relay, ext, r)
  {
    var ops := Node.Hydrated(relay, ext, r);
    FittingOps(size, budget, Listing(ops));
    ParkedListing(ops);
  }
}

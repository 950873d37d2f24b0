/** Packing a whole Want into frames, and what the frames together ask. */
module PackWant {
  import opened Logs
  import I = Interests
  import opened Storage
  import opened Slicing

  // ---- The entries for one channel, across frames ----

  lemma {:induction false} RecordsConcat(a: seq<I.Interest>, b: seq<I.Interest>, c: Channel)
    ensures I.Records(a + b, c) == I.Records(a, c) + I.Records(b, c)
  {
    if a == [] {
      assert a + b == b;
    } else {
      RecordsConcat(a[1..], b, c);
      assert (a + b)[1..] == a[1..] + b;
    }
  }

  lemma RecordsOne(f: I.Interest, c: Channel)
    ensures I.Records([f], c) == if c in f then [f[c]] else []
  {
    assert [f][1..] == [];
  }

  /** Each entry as a one-entry interest. */
  function Singles(c: Channel, es: seq<I.Entry>): (r: seq<I.Interest>)
    ensures |r| == |es| && forall i :: 0 <= i < |r| ==> r[i] == map[c := es[i]]
  {
    seq(|es|, i requires 0 <= i < |es| => map[c := es[i]])
  }

  lemma {:induction false} RecordsSingles(c: Channel, es: seq<I.Entry>, d: Channel)
    ensures I.Records(Singles(c, es), d) == if d == c then es else []
  {
    if es != [] {
      RecordsSingles(c, es[1..], d);
      assert Singles(c, es)[1..] == Singles(c, es[1..]);
    } else {
      assert Singles(c, es) == [];
    }
  }

  // ---- What the frames of an interest are ----

  predicate FitsWhole(w: Encoder, c: Channel, e: I.Entry, budget: nat) {
    w.want(map[c := e]) <= budget
  }

  /** A pure entry too big for a frame: the only kind that is not sent at all. */
  predicate Unaskable(w: Encoder, c: Channel, e: I.Entry, budget: nat) {
    I.IsPure(e) && !FitsWhole(w, c, e, budget)
  }

  /** The frames' entries for one channel: the whole entry when it fits, else its slices. */
  ghost predicate EntryPacked(w: Encoder, c: Channel, e: I.Entry, budget: nat, records: seq<I.Entry>, claims: AuthorMap) {
    if FitsWhole(w, c, e, budget) then records == [e] && claims == e.have
    else SlicesOf(w, c, e, budget, records, claims)
  }

  ghost predicate Untruncated(w: Encoder, c: Channel, e: I.Entry, budget: nat) {
    FitsWhole(w, c, e, budget) || (!Unaskable(w, c, e, budget) && RunsFit(w, c, e, budget))
  }

  ghost predicate WithinBudget(w: Encoder, c: Channel, e: I.Entry, budget: nat) {
    FitsWhole(w, c, e, budget) || SlicesFit(w, c, e, budget)
  }

  ghost predicate FrameFits(w: Encoder, budget: nat, f: I.Interest) {
    w.want(f) <= budget
  }

  /** `frames` is a packing of `interest` restricted to the channels in `done`. */
  ghost predicate Packed(w: Encoder, interest: I.Interest, budget: nat, done: set<Channel>, frames: seq<I.Interest>,
                         claims: map<Channel, AuthorMap>)
  {
    && done <= interest.Keys && claims.Keys == done
    && (forall c :: c in done ==> EntryPacked(w, c, interest[c], budget, I.Records(frames, c), claims[c]))
    && (forall c :: c !in done ==> I.Records(frames, c) == [])
    && (forall i :: 0 <= i < |frames| ==> frames[i] != map[])
  }

  ghost predicate AllFit(w: Encoder, budget: nat, frames: seq<I.Interest>) {
    forall i :: 0 <= i < |frames| ==> FrameFits(w, budget, frames[i])
  }

  ghost predicate AllWithin(w: Encoder, interest: I.Interest, budget: nat, done: set<Channel>)
    requires done <= interest.Keys
  {
    forall c :: c in done ==> WithinBudget(w, c, interest[c], budget)
  }

  ghost predicate AllUntruncated(w: Encoder, interest: I.Interest, budget: nat, done: set<Channel>)
    requires done <= interest.Keys
  {
    forall c :: c in done ==> Untruncated(w, c, interest[c], budget)
  }

  /** No claim made under the channels of `done` is less than what was held. */
  ghost predicate Intact(interest: I.Interest, claims: map<Channel, AuthorMap>, done: set<Channel>) {
    done <= interest.Keys && done <= claims.Keys
    && forall c :: c in done ==> Shrunken(claims[c], interest[c].have) == {}
  }

  lemma IntactMore(interest: I.Interest, claims: map<Channel, AuthorMap>, done: set<Channel>, c: Channel, kept: AuthorMap)
    requires Intact(interest, claims, done) && c in interest && c !in done
    requires kept == interest[c].have || Shrunken(kept, interest[c].have) == {}
    ensures Intact(interest, claims[c := kept], done + {c})
  {
    assert kept == interest[c].have ==> forall a :: !Shrank(kept, interest[c].have, a);
  }

  function Flushed(frames: seq<I.Interest>, cur: I.Interest): seq<I.Interest> {
    if cur == map[] then frames else frames + [cur]
  }

  lemma RecordsFlushed(frames: seq<I.Interest>, cur: I.Interest, c: Channel)
    ensures I.Records(Flushed(frames, cur), c) == I.Records(frames, c) + if c in cur then [cur[c]] else []
  {
    RecordsConcat(frames, [cur], c);
    RecordsOne(cur, c);
  }

  /** A whole entry joins the current frame. */
  lemma JoinsFrame(w: Encoder, interest: I.Interest, budget: nat, done: set<Channel>, frames: seq<I.Interest>,
                   cur: I.Interest, claims: map<Channel, AuthorMap>, c: Channel)
    requires Packed(w, interest, budget, done, Flushed(frames, cur), claims) && c in interest && c !in done
    requires FitsWhole(w, c, interest[c], budget)
    ensures Packed(w, interest, budget, done + {c}, Flushed(frames, cur[c := interest[c]]), claims[c := interest[c].have])
  {
    hide FitsWhole, SlicesOf, Flushed;
    forall d
      ensures I.Records(Flushed(frames, cur[c := interest[c]]), d)
           == if d == c then [interest[c]] else I.Records(Flushed(frames, cur), d)
    {
      RecordsFlushed(frames, cur, d);
      RecordsFlushed(frames, cur[c := interest[c]], d);
    }
    NonEmptyFlush(frames, cur, cur[c := interest[c]]);
  }

  lemma NonEmptyFlush(frames: seq<I.Interest>, cur: I.Interest, cur': I.Interest)
    requires forall i :: 0 <= i < |Flushed(frames, cur)| ==> Flushed(frames, cur)[i] != map[]
    ensures forall i :: 0 <= i < |Flushed(frames, cur')| ==> Flushed(frames, cur')[i] != map[]
  {
    forall i | 0 <= i < |frames| ensures frames[i] != map[] {
      assert Flushed(frames, cur)[i] == frames[i];
    }
  }

  /** An entry is sent as its slices, one to a frame. */
  lemma AddsSlices(w: Encoder, interest: I.Interest, budget: nat, done: set<Channel>, frames: seq<I.Interest>,
                   claims: map<Channel, AuthorMap>, c: Channel, slices: seq<I.Entry>, kept: AuthorMap)
    requires Packed(w, interest, budget, done, frames, claims) && c in interest && c !in done
    requires !FitsWhole(w, c, interest[c], budget) && SlicesOf(w, c, interest[c], budget, slices, kept)
    ensures Packed(w, interest, budget, done + {c}, frames + Singles(c, slices), claims[c := kept])
  {
    hide FitsWhole, SlicesOf;
    forall d
      ensures I.Records(frames + Singles(c, slices), d) == if d == c then slices else I.Records(frames, d)
    {
      RecordsConcat(frames, Singles(c, slices), d);
      RecordsSingles(c, slices, d);
    }
  }

  lemma FitsFlushed(w: Encoder, budget: nat, frames: seq<I.Interest>, cur: I.Interest)
    ensures AllFit(w, budget, Flushed(frames, cur)) <==> AllFit(w, budget, frames) && (cur == map[] || FrameFits(w, budget, cur))
  {
    hide FrameFits;
    if AllFit(w, budget, Flushed(frames, cur)) {
      forall i | 0 <= i < |frames| ensures FrameFits(w, budget, frames[i]) {
        assert Flushed(frames, cur)[i] == frames[i];
      }
      if cur != map[] {
        assert Flushed(frames, cur)[|frames|] == cur;
      }
    }
  }

  lemma FitsSingles(w: Encoder, budget: nat, frames: seq<I.Interest>, c: Channel, slices: seq<I.Entry>)
    ensures AllFit(w, budget, frames + Singles(c, slices))
            <==> AllFit(w, budget, frames) && forall k :: 0 <= k < |slices| ==> w.want(map[c := slices[k]]) <= budget
  {
    var all := frames + Singles(c, slices);
    if AllFit(w, budget, all) {
      forall i | 0 <= i < |frames| ensures FrameFits(w, budget, frames[i]) {
        assert all[i] == frames[i];
      }
      forall k | 0 <= k < |slices| ensures w.want(map[c := slices[k]]) <= budget {
        assert FrameFits(w, budget, all[|frames| + k]);
      }
    }
  }

  /** A whole entry that does not fit has no pure want that does. */
  lemma PureTooBig(w: Encoder, c: Channel, e: I.Entry, budget: nat)
    requires Additive(w) && I.IsPure(e) && !FitsWhole(w, c, e, budget)
    ensures !Fits(w, c, e, budget, map[])
  {
    FitsMeans(w, c, e, budget, map[]);
  }

  lemma AllMore(w: Encoder, interest: I.Interest, budget: nat, done: set<Channel>, c: Channel)
    requires done <= interest.Keys && c in interest
    ensures AllUntruncated(w, interest, budget, done + {c})
            <==> AllUntruncated(w, interest, budget, done) && Untruncated(w, c, interest[c], budget)
    ensures AllWithin(w, interest, budget, done + {c})
            <==> AllWithin(w, interest, budget, done) && WithinBudget(w, c, interest[c], budget)
  {
    hide Untruncated, WithinBudget;
  }

  /** The state of the packing loop: `done` channels are in `frames` and `cur`. */
  ghost predicate Packing(w: Encoder, interest: I.Interest, budget: nat, done: set<Channel>, frames: seq<I.Interest>,
                          cur: I.Interest, truncated: nat, claims: map<Channel, AuthorMap>)
  {
    && done <= interest.Keys
    && Packed(w, interest, budget, done, Flushed(frames, cur), claims)
    && (cur == map[] || FrameFits(w, budget, cur))
    && (truncated == 0 <==> AllUntruncated(w, interest, budget, done))
    && (truncated == 0 ==> Intact(interest, claims, done))
    && (AllFit(w, budget, Flushed(frames, cur)) <==> AllWithin(w, interest, budget, done))
  }

  lemma FlushKeeps(w: Encoder, interest: I.Interest, budget: nat, done: set<Channel>, frames: seq<I.Interest>,
                   cur: I.Interest, truncated: nat, claims: map<Channel, AuthorMap>)
    requires Packing(w, interest, budget, done, frames, cur, truncated, claims)
    ensures Packing(w, interest, budget, done, Flushed(frames, cur), map[], truncated, claims)
  {
    hide Packed, AllUntruncated, Intact, AllFit, AllWithin, FrameFits;
    FlushedNothing(Flushed(frames, cur));
    hide Flushed;
  }

  lemma WholeKeeps(w: Encoder, interest: I.Interest, budget: nat, done: set<Channel>, frames: seq<I.Interest>,
                   cur: I.Interest, truncated: nat, claims: map<Channel, AuthorMap>, c: Channel)
    requires Packing(w, interest, budget, done, frames, cur, truncated, claims) && c in interest && c !in done
    requires FitsWhole(w, c, interest[c], budget) && FrameFits(w, budget, cur[c := interest[c]])
    ensures Packing(w, interest, budget, done + {c}, frames, cur[c := interest[c]], truncated,
                    claims[c := interest[c].have])
  {
    hide Packed, AllUntruncated, Intact, AllFit, AllWithin, FrameFits, Flushed;
    var e := interest[c];
    JoinsFrame(w, interest, budget, done, frames, cur, claims, c);
    AllMore(w, interest, budget, done, c);
    FitsFlushed(w, budget, frames, cur);
    FitsFlushed(w, budget, frames, cur[c := e]);
    if truncated == 0 {
      IntactMore(interest, claims, done, c, e.have);
    }
  }

  lemma SlicesKeep(w: Encoder, interest: I.Interest, budget: nat, done: set<Channel>, frames: seq<I.Interest>,
                   truncated: nat, claims: map<Channel, AuthorMap>, c: Channel, slices: seq<I.Entry>, lost: nat,
                   kept: AuthorMap)
    requires Additive(w) && c in interest && c !in done && !FitsWhole(w, c, interest[c], budget)
    requires Packing(w, interest, budget, done, frames, map[], truncated, claims)
    requires SlicedFor(w, c, interest[c], budget, slices, lost, kept)
    ensures Packing(w, interest, budget, done + {c}, frames + Singles(c, slices), map[], truncated + lost,
                    claims[c := kept])
  {
    hide Packed, AllUntruncated, Intact, AllFit, AllWithin, FrameFits, Flushed, SlicesOf, RunsFit, SlicesFit, Additive,
         Unaskable;
    FlushedNothing(frames);
    FlushedNothing(frames + Singles(c, slices));
    AddsSlices(w, interest, budget, done, frames, claims, c, slices, kept);
    FitsSingles(w, budget, frames, c, slices);
    UntruncatedSlices(w, c, interest[c], budget, slices, kept);
    AllMore(w, interest, budget, done, c);
    if truncated + lost == 0 {
      IntactMore(interest, claims, done, c, kept);
    }
  }

  // ---- Frames are filled ----

  ghost predicate AllWhole(w: Encoder, interest: I.Interest, budget: nat, f: I.Interest) {
    forall c :: c in f ==> c in interest && FitsWhole(w, c, interest[c], budget)
  }

  ghost predicate AllAskable(w: Encoder, interest: I.Interest, budget: nat, done: set<Channel>) {
    forall c :: c in done ==> c in interest && !Unaskable(w, c, interest[c], budget)
  }

  /** Of two frames of whole entries in a row, the second has an entry the first had no room for, or a channel that
      goes unasked lies between them. */
  ghost predicate Filled(w: Encoder, interest: I.Interest, budget: nat, frames: seq<I.Interest>) {
    forall i :: 0 < i < |frames| ==> NoRoomFor(w, interest, budget, frames[i - 1], frames[i])
  }

  ghost predicate NoRoomFor(w: Encoder, interest: I.Interest, budget: nat, f: I.Interest, g: I.Interest) {
    AllWhole(w, interest, budget, f) && AllWhole(w, interest, budget, g) ==>
      || (exists c :: c in g && c in interest && budget < w.want(f[c := interest[c]]))
      || (exists u :: Skipped(w, interest, budget, u) && Below(f, u) && Above(g, u))
  }

  /** A channel that goes unasked. */
  ghost predicate Skipped(w: Encoder, interest: I.Interest, budget: nat, u: Channel) {
    u in interest && Unaskable(w, u, interest[u], budget)
  }

  ghost predicate Below(f: I.Interest, u: Channel) {
    forall c :: c in f ==> c < u
  }

  ghost predicate Above(f: I.Interest, u: Channel) {
    forall c :: c in f ==> u < c
  }

  /** Channels are taken in ascending order. */
  ghost predicate Past(done: set<Channel>, c: Channel) {
    forall d :: d in done ==> d < c
  }

  /** Frames are filled so far, and when none is being filled the last was not one of whole entries, or a channel
      above it has gone unasked. */
  ghost predicate Filling(w: Encoder, interest: I.Interest, budget: nat, done: set<Channel>, frames: seq<I.Interest>,
                          cur: I.Interest)
  {
    && cur.Keys <= done
    && Filled(w, interest, budget, Flushed(frames, cur))
    && (cur == map[] && frames != [] ==> Closed(w, interest, budget, done, frames[|frames| - 1]))
  }

  ghost predicate Closed(w: Encoder, interest: I.Interest, budget: nat, done: set<Channel>, f: I.Interest) {
    AllWhole(w, interest, budget, f) ==> exists u :: u in done && Skipped(w, interest, budget, u) && Below(f, u)
  }

  lemma FilledSnoc(w: Encoder, interest: I.Interest, budget: nat, frames: seq<I.Interest>, f: I.Interest)
    ensures Filled(w, interest, budget, frames + [f]) <==>
            Filled(w, interest, budget, frames)
            && (frames != [] ==> NoRoomFor(w, interest, budget, frames[|frames| - 1], f))
  {
    hide NoRoomFor;
    var all := frames + [f];
    if Filled(w, interest, budget, all) {
      forall i | 0 < i < |frames| ensures NoRoomFor(w, interest, budget, frames[i - 1], frames[i]) {
        assert NoRoomFor(w, interest, budget, all[i - 1], all[i]);
      }
      if frames != [] {
        assert NoRoomFor(w, interest, budget, all[|frames| - 1], all[|frames|]);
      }
    }
  }

  /** A whole entry joins the frame being filled, or starts one. */
  lemma FillsJoin(w: Encoder, interest: I.Interest, budget: nat, done: set<Channel>, frames: seq<I.Interest>,
                  cur: I.Interest, c: Channel)
    requires Filling(w, interest, budget, done, frames, cur) && c in interest && Past(done, c)
    requires FitsWhole(w, c, interest[c], budget)
    ensures Filling(w, interest, budget, done + {c}, frames, cur[c := interest[c]])
  {
    hide Unaskable, NoRoomFor, Filled, AllWhole, Skipped, Below;
    var cur' := cur[c := interest[c]];
    assert c in cur';
    FilledSnoc(w, interest, budget, frames, cur);
    FilledSnoc(w, interest, budget, frames, cur');
    if frames != [] {
      if cur == map[] {
        StartsFrame(w, interest, budget, done, frames[|frames| - 1], c);
        assert cur' == map[c := interest[c]];
      } else {
        JoinsAfter(w, interest, budget, done, frames[|frames| - 1], cur, c);
      }
    }
  }

  lemma StartsFrame(w: Encoder, interest: I.Interest, budget: nat, done: set<Channel>, last: I.Interest, c: Channel)
    requires Closed(w, interest, budget, done, last) && c in interest && Past(done, c)
    ensures NoRoomFor(w, interest, budget, last, map[c := interest[c]])
  {
    hide AllWhole, Skipped, Below;
    if AllWhole(w, interest, budget, last) {
      var u :| u in done && Skipped(w, interest, budget, u) && Below(last, u);
      assert Above(map[c := interest[c]], u);
    }
  }

  lemma JoinsAfter(w: Encoder, interest: I.Interest, budget: nat, done: set<Channel>, last: I.Interest, cur: I.Interest,
                   c: Channel)
    requires NoRoomFor(w, interest, budget, last, cur) && c in interest && cur.Keys <= done && Past(done, c)
    requires cur != map[] && FitsWhole(w, c, interest[c], budget)
    ensures NoRoomFor(w, interest, budget, last, cur[c := interest[c]])
  {
    hide FitsWhole, Skipped, Below;
    var cur' := cur[c := interest[c]];
    if AllWhole(w, interest, budget, last) && AllWhole(w, interest, budget, cur') {
      forall d | d in cur ensures d in interest && FitsWhole(w, d, interest[d], budget) {
        assert d in cur';
      }
      if d :| d in cur && d in interest && budget < w.want(last[d := interest[d]]) {
        assert d in cur';
      } else {
        var u :| Skipped(w, interest, budget, u) && Below(last, u) && Above(cur, u);
        var d :| d in cur;
        assert Above(cur', u);
      }
    }
  }

  /** A whole entry that overflows the frame being filled starts the next. */
  lemma FillsCut(w: Encoder, interest: I.Interest, budget: nat, done: set<Channel>, frames: seq<I.Interest>,
                 cur: I.Interest, c: Channel)
    requires Filling(w, interest, budget, done, frames, cur) && c in interest && cur != map[]
    requires budget < w.want(cur[c := interest[c]])
    ensures Filling(w, interest, budget, done + {c}, Flushed(frames, cur), map[c := interest[c]])
  {
    hide FitsWhole, Unaskable, AllWhole, Filled, Skipped, Below, Above, Closed;
    var f: I.Interest := map[c := interest[c]];
    FilledSnoc(w, interest, budget, Flushed(frames, cur), f);
    assert c in f;
  }

  lemma {:induction false} FillsSlices(w: Encoder, interest: I.Interest, budget: nat, frames: seq<I.Interest>, c: Channel,
                                       slices: seq<I.Entry>)
    requires c in interest && !FitsWhole(w, c, interest[c], budget)
    requires Filled(w, interest, budget, frames)
    ensures Filled(w, interest, budget, frames + Singles(c, slices))
    decreases |slices|
  {
    hide FitsWhole;
    if slices == [] {
      assert frames + Singles(c, slices) == frames;
    } else {
      var front, last := slices[..|slices| - 1], slices[|slices| - 1];
      FillsSlices(w, interest, budget, frames, c, front);
      var f: I.Interest := map[c := last];
      assert c in f;
      FilledSnoc(w, interest, budget, frames + Singles(c, front), f);
      assert frames + Singles(c, slices) == frames + Singles(c, front) + [f];
    }
  }

  /** Slices close the frame being filled, and are frames of their own; where there are none, the channel goes
      unasked. */
  lemma FillsAfterSlices(w: Encoder, interest: I.Interest, budget: nat, done: set<Channel>, frames: seq<I.Interest>,
                         cur: I.Interest, c: Channel, slices: seq<I.Entry>)
    requires Filling(w, interest, budget, done, frames, cur) && c in interest && !FitsWhole(w, c, interest[c], budget)
    requires Past(done, c)
    requires !Unaskable(w, c, interest[c], budget) ==> slices != []
    ensures Filling(w, interest, budget, done + {c}, Flushed(frames, cur) + Singles(c, slices), map[])
  {
    hide FitsWhole, Unaskable, Filled, AllWhole;
    var all := Flushed(frames, cur) + Singles(c, slices);
    FillsSlices(w, interest, budget, Flushed(frames, cur), c, slices);
    if slices != [] {
      assert all[|all| - 1] == map[c := slices[|slices| - 1]];
      SliceIsNotWhole(w, interest, budget, c, all[|all| - 1]);
    } else {
      assert all == Flushed(frames, cur);
      if cur != map[] {
        assert Skipped(w, interest, budget, c) && Below(cur, c);
      }
    }
  }

  lemma SliceIsNotWhole(w: Encoder, interest: I.Interest, budget: nat, c: Channel, f: I.Interest)
    requires c in interest && !FitsWhole(w, c, interest[c], budget) && c in f
    ensures !AllWhole(w, interest, budget, f)
  {
  }

  lemma SlicedWhenAskable(w: Encoder, c: Channel, e: I.Entry, budget: nat, slices: seq<I.Entry>, kept: AuthorMap)
    requires !FitsWhole(w, c, e, budget) && SlicesOf(w, c, e, budget, slices, kept)
    ensures !Unaskable(w, c, e, budget) ==> slices != []
  {
  }

  /** What packing needs to know of a sliced entry. */
  ghost predicate SlicedFor(w: Encoder, c: Channel, e: I.Entry, budget: nat, slices: seq<I.Entry>, lost: nat,
                            kept: AuthorMap)
  {
    && SlicesOf(w, c, e, budget, slices, kept)
    && lost == |Shrunken(kept, e.have)| + (if slices == [] then 1 else 0)
    && (lost == 0 <==> slices != [] && RunsFit(w, c, e, budget))
    && ((forall k :: 0 <= k < |slices| ==> w.want(map[c := slices[k]]) <= budget) <==> SlicesFit(w, c, e, budget))
  }

  method SlicesFor(w: Encoder, c: Channel, e: I.Entry, budget: nat)
    returns (slices: seq<I.Entry>, lost: nat, ghost kept: AuthorMap)
    requires Additive(w) && !FitsWhole(w, c, e, budget)
    ensures SlicedFor(w, c, e, budget, slices, lost, kept)
    ensures !Unaskable(w, c, e, budget) ==> slices != []
  {
    hide Additive, SlicesOf, RunsFit, SlicesFit, Unaskable, LeastCut, CutAt, RunAt, Shrunken;
    slices, lost, kept := SliceEntry(w, c, e, budget);
    SlicedWhenAskable(w, c, e, budget, slices, kept);
  }

  /** `pack_want`. The frames are a packing of the whole interest; they all fit exactly when every entry can
      be made to; the count is zero exactly when no claim had to shrink and no channel had to go unasked. */
  method PackWant(w: Encoder, interest: I.Interest, budget: nat)
    returns (frames: seq<I.Interest>, truncated: nat, ghost claims: map<Channel, AuthorMap>)
    requires Additive(w)
    ensures Packed(w, interest, budget, interest.Keys, frames, claims)
    ensures truncated == 0 <==> AllUntruncated(w, interest, budget, interest.Keys)
    ensures truncated == 0 ==> Intact(interest, claims, interest.Keys)
    ensures AllFit(w, budget, frames) <==> AllWithin(w, interest, budget, interest.Keys)
    ensures Filled(w, interest, budget, frames)
  {
    hide Packing, Packed, Additive, SlicedFor, AllFit, Flushed, Intact, AllUntruncated, AllWithin, Filling, Filled,
         Unaskable;
    frames, truncated, claims := [], 0, map[];
    var cur: I.Interest := map[];
    var todo := interest.Keys;
    ghost var done: set<Channel> := {};
    NothingPacked(w, interest, budget);
    while todo != {}
      invariant done + todo == interest.Keys && done !! todo
      invariant forall d, c :: d in done && c in todo ==> d < c
      invariant Packing(w, interest, budget, done, frames, cur, truncated, claims)
      invariant Filling(w, interest, budget, done, frames, cur)
    {
      var c := MinOf(todo);
      var e := interest[c];
      if w.want(map[c := e]) <= budget {
        if w.want(cur[c := e]) > budget {
          FlushKeeps(w, interest, budget, done, frames, cur, truncated, claims);
          FillsCut(w, interest, budget, done, frames, cur, c);
          frames := Flushed(frames, cur);
          cur := map[];
        } else {
          FillsJoin(w, interest, budget, done, frames, cur, c);
        }
        WholeKeeps(w, interest, budget, done, frames, cur, truncated, claims, c);
        cur := cur[c := e];
        claims := claims[c := e.have];
      } else {
        FlushKeeps(w, interest, budget, done, frames, cur, truncated, claims);
        var slices, lost, kept := SlicesFor(w, c, e, budget);
        FillsAfterSlices(w, interest, budget, done, frames, cur, c, slices);
        frames := Flushed(frames, cur);
        cur := map[];
        SlicesKeep(w, interest, budget, done, frames, truncated, claims, c, slices, lost, kept);
        frames := frames + Singles(c, slices);
        truncated := truncated + lost;
        claims := claims[c := kept];
      }
      todo := todo - {c};
      done := done + {c};
    }
    assert done == interest.Keys;
    PackedAll(w, interest, budget, frames, cur, truncated, claims);
    FilledAll(w, interest, budget, frames, cur);
    frames := Flushed(frames, cur);
  }

  lemma FilledAll(w: Encoder, interest: I.Interest, budget: nat, frames: seq<I.Interest>, cur: I.Interest)
    requires Filling(w, interest, budget, interest.Keys, frames, cur)
    ensures Filled(w, interest, budget, Flushed(frames, cur))
  {
  }

  lemma PackedAll(w: Encoder, interest: I.Interest, budget: nat, frames: seq<I.Interest>, cur: I.Interest,
                  truncated: nat, claims: map<Channel, AuthorMap>)
    requires Packing(w, interest, budget, interest.Keys, frames, cur, truncated, claims)
    ensures Packed(w, interest, budget, interest.Keys, Flushed(frames, cur), claims)
    ensures truncated == 0 <==> AllUntruncated(w, interest, budget, interest.Keys)
    ensures truncated == 0 ==> Intact(interest, claims, interest.Keys)
    ensures AllFit(w, budget, Flushed(frames, cur)) <==> AllWithin(w, interest, budget, interest.Keys)
  {
  }

  lemma NothingPacked(w: Encoder, interest: I.Interest, budget: nat)
    ensures Packing(w, interest, budget, {}, [], map[], 0, map[])
    ensures Filling(w, interest, budget, {}, [], map[])
  {
  }

  lemma FlushedNothing(frames: seq<I.Interest>)
    ensures Flushed(frames, map[]) == frames
  {
  }

  lemma UntruncatedSlices(w: Encoder, c: Channel, e: I.Entry, budget: nat, slices: seq<I.Entry>, kept: AuthorMap)
    requires Additive(w) && !FitsWhole(w, c, e, budget) && SlicesOf(w, c, e, budget, slices, kept)
    ensures Untruncated(w, c, e, budget) <==> slices != [] && RunsFit(w, c, e, budget)
  {
    if I.IsPure(e) {
      PureTooBig(w, c, e, budget);
    }
  }
}

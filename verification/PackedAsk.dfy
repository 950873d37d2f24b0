/** A fragmented Want is one ask, and answering it fills the asker's gap. */
module PackedAsk {
  import R = Ranges
  import opened Logs
  import LR = LogRanges
  import I = Interests
  import Rt = Router
  import opened Storage
  import Node
  import NI = NodeInvariant
  import NodeFlood
  import opened Slicing
  import opened PackWant

  // ---- One entry and its slices ----

  /** Scopes that tile an interval hold every prefix of it, and no other. */
  lemma {:induction false} TilesCover(out: seq<I.Entry>, lo: Seq, hi: Seq, p: Seq)
    requires Tiles(out, lo, hi)
    ensures lo <= p <= hi <==> exists k :: 0 <= k < |out| && out[k].lo <= p <= out[k].hi
    decreases |out|
  {
    if |out| > 1 {
      var rest := out[1..];
      assert Touches(out[0], out[1]);
      forall k | 0 < k < |rest| ensures Touches(rest[k - 1], rest[k]) {
        assert Touches(out[k], out[k + 1]);
      }
      TilesCover(rest, out[1].lo, hi, p);
      if out[1].lo <= p <= hi {
        var k :| 0 <= k < |rest| && rest[k].lo <= p <= rest[k].hi;
        assert out[k + 1].lo <= p <= out[k + 1].hi;
      }
      if exists k :: 0 <= k < |out| && out[k].lo <= p <= out[k].hi {
        var k :| 0 <= k < |out| && out[k].lo <= p <= out[k].hi;
        TilesAscend(out, lo, hi, k);
      }
      TilesAscend(out, lo, hi, 0);
      assert out[0].lo <= out[0].hi;
    }
  }

  lemma {:induction false} TilesAscend(out: seq<I.Entry>, lo: Seq, hi: Seq, k: nat)
    requires Tiles(out, lo, hi) && k < |out|
    ensures lo <= out[k].lo <= out[k].hi <= hi
    decreases |out|
  {
    if |out| > 1 {
      var rest := out[1..];
      assert Touches(out[0], out[1]);
      forall j | 0 < j < |rest| ensures Touches(rest[j - 1], rest[j]) {
        assert Touches(out[j], out[j + 1]);
      }
      TilesAscend(rest, out[1].lo, hi, if k == 0 then 0 else k - 1);
    }
  }

  /** The slices ask for what is in scope and not in the shrunk claims. */
  lemma SlicesAsk(e: I.Entry, out: seq<I.Entry>, claims: AuthorMap, a: Author, s: Seq)
    requires Tiles(out, e.lo, e.hi) && Shares(out, claims)
    ensures I.AskedBySome(out, a, s) <==> I.InScope(e, a) && !(a in claims && R.Contains(claims[a], s))
  {
    R.EmptyContainsNothing();
    TilesCover(out, e.lo, e.hi, a.prefix);
    hide R.Contains, Tiles;
    forall k | 0 <= k < |out|
      ensures I.EntryAsks(out[k], a, s)
              <==> out[k].lo <= a.prefix <= out[k].hi && !(a in claims && R.Contains(claims[a], s))
    {
      assert out[k].have == Between(claims, out[k].lo, out[k].hi + 1);
    }
    if I.InScope(e, a) && !(a in claims && R.Contains(claims[a], s)) {
      var k :| 0 <= k < |out| && out[k].lo <= a.prefix <= out[k].hi;
      assert I.EntryAsks(out[k], a, s);
    }
  }

  /** Shrunk claims leave nothing unasked, and ask for more exactly where they shrank. */
  lemma ShrunkAsk(e: I.Entry, claims: AuthorMap, a: Author, s: Seq)
    requires Shrinks(claims, e.have)
    ensures I.EntryAsks(e, a, s) ==> I.InScope(e, a) && !(a in claims && R.Contains(claims[a], s))
    ensures !Shrank(claims, e.have, a) ==>
              (I.EntryAsks(e, a, s) <==> I.InScope(e, a) && !(a in claims && R.Contains(claims[a], s)))
  {
    R.EmptyContainsNothing();
    if a in claims && R.Contains(claims[a], s) {
      ClosedPrefixClaimsLess(claims[a], e.have[a], s);
    }
  }

  // ---- One interest and its frames ----

  /** What the packed entries for one channel ask. */
  lemma EntryPackedAsk(w: Encoder, c: Channel, e: I.Entry, budget: nat, records: seq<I.Entry>, claims: AuthorMap,
                       a: Author, s: Seq)
    requires Additive(w) && EntryPacked(w, c, e, budget, records, claims)
    ensures Unaskable(w, c, e, budget) ==> !I.AskedBySome(records, a, s)
    ensures !Unaskable(w, c, e, budget) && I.EntryAsks(e, a, s) ==> I.AskedBySome(records, a, s)
    ensures I.AskedBySome(records, a, s) ==> I.InScope(e, a)
    ensures !Shrank(claims, e.have, a) && I.AskedBySome(records, a, s) ==> I.EntryAsks(e, a, s)
  {
    hide I.EntryAsks, Fits, R.Contains, Shrinks, Shares, Tiles, Additive;
    if FitsWhole(w, c, e, budget) {
      if I.EntryAsks(e, a, s) {
        assert I.EntryAsks(records[0], a, s);
      }
      AsksInScope(e, a, s);
    } else {
      if I.IsPure(e) {
        PureTooBig(w, c, e, budget);
      }
      if records != [] {
        SlicesAsk(e, records, claims, a, s);
        ShrunkAsk(e, claims, a, s);
      }
    }
  }

  lemma AsksInScope(e: I.Entry, a: Author, s: Seq)
    ensures I.EntryAsks(e, a, s) ==> I.InScope(e, a)
  {
  }

  /** Frames ask for every key the interest asks for, except under a channel whose pure want fits no frame,
      under which they ask for nothing; and they ask for more only where a claim shrank. */
  lemma FramesAsk(w: Encoder, interest: I.Interest, budget: nat, frames: seq<I.Interest>,
                  claims: map<Channel, AuthorMap>, k: Key)
    requires Additive(w) && Packed(w, interest, budget, interest.Keys, frames, claims)
    ensures var c := k.log.channel;
            && (I.AskedBy(frames, k) ==> c in interest && I.InScope(interest[c], k.log.author)
                                         && !Unaskable(w, c, interest[c], budget))
            && (I.Asks(interest, k) && !Unaskable(w, c, interest[c], budget) ==> I.AskedBy(frames, k))
            && (c in interest && !Shrank(claims[c], interest[c].have, k.log.author) && I.AskedBy(frames, k)
                ==> I.Asks(interest, k))
  {
    hide I.AskedBy, I.EntryAsks, EntryPacked, Additive, Unaskable, Shrank;
    I.AskedBySomeIsAskedBy(frames, k);
    var c := k.log.channel;
    if c in interest {
      EntryPackedAsk(w, c, interest[c], budget, I.Records(frames, c), claims[c], k.log.author, k.at);
    } else {
      assert I.Records(frames, c) == [];
    }
  }

  ghost predicate Askable(w: Encoder, interest: I.Interest, budget: nat) {
    AllAskable(w, interest, budget, interest.Keys)
  }

  /** A pure entry asks for something, so leaving it out loses an ask: the frames ask for all of the
      interest if and only if no pure entry is too big for a frame. */
  lemma NothingUnaskedIff(w: Encoder, interest: I.Interest, budget: nat, frames: seq<I.Interest>,
                          claims: map<Channel, AuthorMap>)
    requires Additive(w) && Packed(w, interest, budget, interest.Keys, frames, claims)
    ensures (forall k :: I.Asks(interest, k) ==> I.AskedBy(frames, k)) <==> Askable(w, interest, budget)
  {
    hide I.Asks, I.AskedBy, Packed, Additive, Unaskable;
    if Askable(w, interest, budget) {
      forall k | I.Asks(interest, k) ensures I.AskedBy(frames, k) {
        AsksUnderEntry(interest, k);
        FramesAsk(w, interest, budget, frames, claims, k);
      }
    } else {
      var c :| c in interest && Unaskable(w, c, interest[c], budget);
      var k := Key(Log(c, Author(interest[c].lo, 0)), 0);
      PureAsks(w, interest, budget, c);
      FramesAsk(w, interest, budget, frames, claims, k);
    }
  }

  lemma AsksUnderEntry(interest: I.Interest, k: Key)
    requires I.Asks(interest, k)
    ensures k.log.channel in interest
  {
  }

  lemma PureAsks(w: Encoder, interest: I.Interest, budget: nat, c: Channel)
    requires c in interest && Unaskable(w, c, interest[c], budget)
    ensures I.Asks(interest, Key(Log(c, Author(interest[c].lo, 0)), 0))
  {
    R.EmptyContainsNothing();
  }

  /** Every askable entry is covered by its own frames. */
  lemma FramesCoverEntry(w: Encoder, interest: I.Interest, budget: nat, frames: seq<I.Interest>,
                         claims: map<Channel, AuthorMap>, c: Channel)
    requires Additive(w) && Packed(w, interest, budget, interest.Keys, frames, claims)
    requires c in interest && !Unaskable(w, c, interest[c], budget)
    ensures I.CoveredBy(interest[c], c, frames)
  {
    hide I.AskedBy, Packed, Additive, Unaskable, I.CoveredBy;
    forall k: Key | k.log.channel == c && I.EntryAsks(interest[c], k.log.author, k.at) ensures I.AskedBy(frames, k) {
      FramesAsk(w, interest, budget, frames, claims, k);
    }
    I.CoveredByMeans(interest[c], c, frames);
  }

  /** Without truncation a network that has seen the frames, and nothing else, asks for exactly what one that
      has seen the whole Want asks for, structurally; with it, for no less. */
  lemma FragmentedWantIsOneAsk(w: Encoder, interest: I.Interest, budget: nat, frames: seq<I.Interest>,
                               claims: map<Channel, AuthorMap>, seen: seq<Rt.SeenWant>, held: LogRanges)
    requires Additive(w) && Packed(w, interest, budget, interest.Keys, frames, claims)
    requires Askable(w, interest, budget) && Rt.SeenInterests(seen) == frames
    ensures forall k :: LR.Has(I.AskWithin(interest, held), k) ==> LR.Has(Rt.AskOf(seen, held), k)
    ensures Intact(interest, claims, interest.Keys) ==> Rt.AskOf(seen, held) == I.AskWithin(interest, held)
  {
    hide Packed, Additive, Unaskable, I.AskedBy, I.Asks, LR.Has, Askable, Rt.AskOf, I.AskWithin, Shrank;
    forall k
      ensures I.Asks(interest, k) ==> I.AskedBy(frames, k)
      ensures Intact(interest, claims, interest.Keys) ==> (I.Asks(interest, k) <==> I.AskedBy(frames, k))
    {
      FramesAskExactly(w, interest, budget, frames, claims, k);
    }
    assert forall k :: LR.Has(Rt.AskOf(seen, held), k) <==> LR.Has(held, k) && I.AskedBy(frames, k);
    assert forall k :: LR.Has(I.AskWithin(interest, held), k) <==> LR.Has(held, k) && I.Asks(interest, k);
    if Intact(interest, claims, interest.Keys) {
      LR.CleanCanonical(Rt.AskOf(seen, held), I.AskWithin(interest, held));
    }
  }

  /** A count of zero is what it takes: the frames `PackWant` makes are then, to a network that has seen them and
      nothing else, structurally the Want they were made from. */
  method PackedIsOneAsk(w: Encoder, interest: I.Interest, budget: nat)
    returns (frames: seq<I.Interest>, truncated: nat)
    requires Additive(w)
    ensures truncated == 0 ==> forall seen, held :: Rt.SeenInterests(seen) == frames ==> SameAsk(interest, seen, held)
  {
    hide Packed, Additive, Askable, Intact, SameAsk, Filled, AllFit, AllWithin;
    ghost var claims;
    frames, truncated, claims := PackWant.PackWant(w, interest, budget);
    if truncated == 0 {
      UntruncatedIsAskable(w, interest, budget);
    }
    forall seen, held | truncated == 0 && Rt.SeenInterests(seen) == frames ensures SameAsk(interest, seen, held) {
      UntruncatedIsSameAsk(w, interest, budget, frames, claims, seen, held);
    }
  }

  ghost predicate SameAsk(interest: I.Interest, seen: seq<Rt.SeenWant>, held: LogRanges) {
    Rt.AskOf(seen, held) == I.AskWithin(interest, held)
  }

  lemma UntruncatedIsSameAsk(w: Encoder, interest: I.Interest, budget: nat, frames: seq<I.Interest>,
                             claims: map<Channel, AuthorMap>, seen: seq<Rt.SeenWant>, held: LogRanges)
    requires Additive(w) && Packed(w, interest, budget, interest.Keys, frames, claims)
    requires Askable(w, interest, budget) && Intact(interest, claims, interest.Keys)
    requires Rt.SeenInterests(seen) == frames
    ensures SameAsk(interest, seen, held)
  {
    hide Packed, Additive, Askable, Intact, Rt.AskOf, I.AskWithin, LR.Has;
    FragmentedWantIsOneAsk(w, interest, budget, frames, claims, seen, held);
  }

  lemma UntruncatedIsAskable(w: Encoder, interest: I.Interest, budget: nat)
    requires AllUntruncated(w, interest, budget, interest.Keys)
    ensures Askable(w, interest, budget)
  {
    forall c | c in interest ensures !Unaskable(w, c, interest[c], budget) {
      assert Untruncated(w, c, interest[c], budget);
    }
  }

  lemma FramesAskExactly(w: Encoder, interest: I.Interest, budget: nat, frames: seq<I.Interest>,
                         claims: map<Channel, AuthorMap>, k: Key)
    requires Additive(w) && Packed(w, interest, budget, interest.Keys, frames, claims)
    requires Askable(w, interest, budget)
    ensures I.Asks(interest, k) ==> I.AskedBy(frames, k)
    ensures Intact(interest, claims, interest.Keys) ==> (I.Asks(interest, k) <==> I.AskedBy(frames, k))
  {
    hide Packed, Additive, Unaskable, I.AskedBy, Shrank;
    FramesAsk(w, interest, budget, frames, claims, k);
    if Intact(interest, claims, interest.Keys) && k.log.channel in interest {
      assert k.log.author !in Shrunken(claims[k.log.channel], interest[k.log.channel].have);
    }
  }

  // ---- One round ----

  /** What the answering node's Have decides to send once the frames are among what it has seen. */
  lemma AnswersTheAsk(s: Rt.State, frames: seq<I.Interest>, k: Key)
    requires forall f :: f in frames ==> f in Rt.SeenInterests(s.seen)
    requires I.AskedBy(frames, k) && LR.Has(s.held, k) && !LR.Has(Rt.RecentHaves(s.haves), k)
    ensures LR.Has(Rt.NextHave(s), k)
  {
    hide I.Asks, LR.Has, Rt.RecentHaves, Rt.AskOf;
    var i :| 0 <= i < |frames| && I.Asks(frames[i], k);
    assert frames[i] in Rt.SeenInterests(s.seen);
    var j :| 0 <= j < |s.seen| && Rt.SeenInterests(s.seen)[j] == frames[i];
    assert I.AskedBy(Rt.SeenInterests(s.seen), k);
  }

  /** The interest asks, under the channel, for everything the node does not hold. */
  ghost predicate OwnWhole(a: Rt.State, interest: I.Interest, c: Channel) {
    c in interest && forall k: Key :: k.log.channel == c && !LR.Has(a.held, k) ==> I.Asks(interest, k)
  }

  /** The Want of a subscriber: what it fires asks for all it lacks under a channel it subscribes to, unless others'
      Wants that it has seen ask for all of that already. */
  lemma SubscriberAsks(m: Node.Machine, a: Node.State, c: Channel, a': Rt.State, fx: seq<Rt.Effect>)
    requires NI.Inv(m, a) && c in a.subs
    requires Rt.Step(m.router, a.router, Rt.FireWant) == R.Some((a', fx))
    ensures (exists w :: fx == [Rt.SendWant(w)] && OwnWhole(a.router, w, c))
            || forall k: Key :: k.log.channel == c && !LR.Has(a.router.held, k) ==>
                 I.AskedBy(Rt.SeenInterests(a.router.seen), k)
  {
    hide LR.Has, Node.HeldUnion, Usage, I.CoveredBy, Rt.MyInterest, Rt.NextWant;
    var s := a.router;
    Rt.InterestSources(s);
    assert Rt.OfInterest(s, c);
    Rt.UncoveredIs(s, c);
    var w := Rt.NextWant(s);
    if c in w {
      assert fx == [Rt.SendWant(w)];
      forall k: Key | k.log.channel == c && !LR.Has(s.held, k) ensures I.Asks(w, k) {
        assert I.Asks(Rt.MyInterest(s), k);
      }
      assert OwnWhole(s, w, c);
    } else {
      forall k: Key | k.log.channel == c && !LR.Has(s.held, k) ensures I.AskedBy(Rt.SeenInterests(s.seen), k) {
        assert I.Asks(Rt.MyInterest(s), k);
        I.CoveredByMeans(Rt.MyInterest(s)[c], c, Rt.SeenInterests(s.seen));
      }
    }
  }

  /** The effects of firing a Have. */
  lemma FiredHaveSends(m: Node.Machine, b: Node.State, k: Key)
    requires Rt.HaveDue(b.router) && LR.Has(Rt.NextHave(b.router), k) && Node.Holds(b, k)
    ensures Node.Step(m, b, Node.Router(Rt.FireHave)).Some?
    ensures var p := Node.Step(m, b, Node.Router(Rt.FireHave)).value;
            NodeFlood.SendsOp(p.1, k)
  {
    hide LR.Has, Rt.NextHave, Node.Route, LR.IsEmpty, Node.Holds;
    LR.EmptyHasNothing(Rt.NextHave(b.router));
    var p := Rt.FiredHave(m.router, b.router);
    var n1 := b.(router := p.0);
    assert Node.Routed(m, b, Rt.FireHave) == R.Some((n1, Node.Route(n1, p.1, map[])));
    assert Rt.SendHave(Rt.NextHave(b.router)) in p.1;
    assert Rt.SendsKey(p.1, k);
    NodeFlood.RouteSends(n1, p.1, map[], k);
    HoldsFrame(b, n1, k);
  }

  lemma HoldsFrame(b: Node.State, n1: Node.State, k: Key)
    requires n1.relay == b.relay && n1.ext == b.ext
    ensures Node.Holds(n1, k) <==> Node.Holds(b, k)
  {
  }

  /** A subscriber keeps whatever a Have brings it. */
  lemma SubscriberKeeps(m: Node.Machine, a: Node.State, msg: Node.Message, k: Key)
    requires msg.body.Have? && k in msg.body.ops && k.log.channel in a.subs
    requires Node.ReceivedHave(m, a, msg.sender, msg.body.ops).Some?
    ensures k in Node.ReceivedHave(m, a, msg.sender, msg.body.ops).value.0.ext
  {
    hide Rt.Step, Node.Route, Node.IngestAll, Node.HeldUnion, LR.OfKeys, SortedKeys, LR.Has;
    IngestsSubscribed(m.cap, a.subs, Node.Stores(a.relay, a.ext), SortedKeys(msg.body.ops.Keys), msg.body.ops, k);
  }

  lemma {:induction false} IngestsSubscribed(cap: nat, subs: set<Channel>, st: Node.Stores, keys: seq<Key>,
                                             parked: OpsMap, x: Key)
    requires forall k :: k in keys ==> k in parked
    requires x.log.channel in subs && (x in keys || x in st.ext)
    ensures x in Node.IngestAll(cap, subs, st, keys, parked).ext
    decreases |keys|
  {
    hide Node.OverCap;
    if keys != [] {
      IngestsSubscribed(cap, subs, Node.IngestOne(cap, subs, st, keys[0], parked[keys[0]]), keys[1..], parked, x);
    }
  }

  /** One round fills the gap. `a` subscribes to `c` and has packed a Want that asks for all it lacks there; `b`
      remembers the frames, has answered nothing under `c` recently, and its Have is due. Then `b` fires a
      Have, and of every op `b` holds under `c`, either `a` already holds it, or some broadcast of `b`'s carries
      it and leaves `a`, on receipt, holding it. */
  lemma OneRoundFillsSubscriber(m: Node.Machine, a: Node.State, b: Node.State, w: Encoder, interest: I.Interest,
                                budget: nat, frames: seq<I.Interest>, claims: map<Channel, AuthorMap>, c: Channel, k: Key)
    requires Additive(w) && Packed(w, interest, budget, interest.Keys, frames, claims)
    requires OwnWhole(a.router, interest, c) && !Unaskable(w, c, interest[c], budget) && c in a.subs
    requires NI.Inv(m, a) && NI.Inv(m, b)
    requires forall f :: f in frames ==> f in Rt.SeenInterests(b.router.seen)
    requires Rt.HaveDue(b.router) && !LR.Has(Rt.RecentHaves(b.router.haves), k)
    requires k.log.channel == c && Node.Holds(b, k)
    ensures Node.Step(m, b, Node.Router(Rt.FireHave)).Some?
    ensures var fx := Node.Step(m, b, Node.Router(Rt.FireHave)).value.1;
            Node.Holds(a, k) || exists i :: 0 <= i < |fx| && NodeFlood.CarriesOp(fx[i], k)
    ensures var fx := Node.Step(m, b, Node.Router(Rt.FireHave)).value.1;
            forall i :: 0 <= i < |fx| && NodeFlood.CarriesOp(fx[i], k)
                        && Node.ReceivedHave(m, a, fx[i].message.sender, fx[i].message.body.ops).Some? ==>
              k in Node.ReceivedHave(m, a, fx[i].message.sender, fx[i].message.body.ops).value.0.ext
  {
    hide Packed, Additive, Unaskable, I.AskedBy, LR.Has, Node.Holds, Rt.NextHave, Node.Step, Node.ReceivedHave,
         Rt.MyInterest, NI.Inv, OwnWhole, Rt.RecentHaves;
    NodeFlood.HeldMeansHolds(m, a, k);
    NodeFlood.HeldMeansHolds(m, b, k);
    FireHaveEnabled(m, b);
    var fx := Node.Step(m, b, Node.Router(Rt.FireHave)).value.1;
    if !Node.Holds(a, k) {
      GapIsAsked(a.router, interest, c, k);
      FramesAsk(w, interest, budget, frames, claims, k);
      AnswersTheAsk(b.router, frames, k);
      FiredHaveSends(m, b, k);
    }
    forall i | 0 <= i < |fx| && NodeFlood.CarriesOp(fx[i], k)
               && Node.ReceivedHave(m, a, fx[i].message.sender, fx[i].message.body.ops).Some?
      ensures k in Node.ReceivedHave(m, a, fx[i].message.sender, fx[i].message.body.ops).value.0.ext
    {
      SubscriberKeeps(m, a, fx[i].message, k);
    }
  }

  lemma GapIsAsked(a: Rt.State, interest: I.Interest, c: Channel, k: Key)
    requires OwnWhole(a, interest, c) && k.log.channel == c && !LR.Has(a.held, k)
    ensures I.Asks(interest, k)
  {
  }

  lemma FireHaveEnabled(m: Node.Machine, b: Node.State)
    requires Rt.HaveDue(b.router)
    ensures Node.Step(m, b, Node.Router(Rt.FireHave)).Some?
  {
    hide Rt.FiredHave, Node.Route;
  }
}

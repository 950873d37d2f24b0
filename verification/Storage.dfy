/** Stores of ops, and the order keys are listed in. */
module Storage {
  import R = Ranges
  import opened Logs
  import LR = LogRanges

  type Seq = R.Seq
  type LogRanges = LR.LogRanges
  type Option<T> = R.Option<T>

  type Byte = b: int | 0 <= b < 0x100 witness 0
  type Bytes = seq<Byte>

  datatype Op = Op(header: Bytes, payload: Option<Bytes>)

  /** The reference store. The source nests it by log; no inner map is ever empty, so a flat map
      holds the same information. */
  type OpsMap = map<Key, Op>

  // ---- Key order ----

  predicate AuthorLess(a: Author, b: Author) {
    a.prefix < b.prefix || (a.prefix == b.prefix && a.rest < b.rest)
  }

  predicate LogLess(a: Log, b: Log) {
    a.channel < b.channel || (a.channel == b.channel && AuthorLess(a.author, b.author))
  }

  /** `(log, seq)` order, channel-major. */
  predicate KeyLess(a: Key, b: Key) {
    LogLess(a.log, b.log) || (a.log == b.log && a.at < b.at)
  }

  lemma KeyLessTotal(a: Key, b: Key)
    ensures a == b || KeyLess(a, b) || KeyLess(b, a)
    ensures !(KeyLess(a, b) && KeyLess(b, a)) && !KeyLess(a, a)
  {
  }

  lemma KeyLessTransitive(a: Key, b: Key, c: Key)
    requires KeyLess(a, b) && KeyLess(b, c)
    ensures KeyLess(a, c)
  {
  }

  ghost predicate Sorted(s: seq<Key>) {
    forall i, j :: 0 <= i < j < |s| ==> KeyLess(s[i], s[j])
  }

  lemma LeastKey(s: set<Key>) returns (k: Key)
    requires s != {}
    ensures k in s && forall x :: x in s && x != k ==> KeyLess(k, x)
  {
    k :| k in s;
    if s != {k} {
      var rest := s - {k};
      var m := LeastKey(rest);
      KeyLessTotal(k, m);
      if KeyLess(m, k) {
        k := m;
      } else {
        forall x | x in s && x != k ensures KeyLess(k, x) {
          if x != m {
            KeyLessTransitive(k, m, x);
          }
        }
      }
    }
  }

  /** A set of keys, listed in order. */
  function SortedKeys(s: set<Key>): (r: seq<Key>)
    ensures Sorted(r)
    ensures forall k :: k in r <==> k in s
  {
    if s == {} then []
    else
      var least := Least(s);
      var rest := SortedKeys(s - {least});
      assert forall i :: 0 <= i < |rest| ==> rest[i] in rest;
      [least] + rest
  }

  function Least(s: set<Key>): (k: Key)
    requires s != {}
    ensures k in s && forall x :: x in s && x != k ==> KeyLess(k, x)
  {
    assert exists k :: IsLeast(s, k) by {
      var k := LeastKey(s);
      assert IsLeast(s, k);
    }
    LeastUnique(s);
    var k :| k in s && IsLeast(s, k);
    k
  }

  predicate IsLeast(s: set<Key>, k: Key) {
    k in s && forall x :: x in s && x != k ==> KeyLess(k, x)
  }

  lemma LeastUnique(s: set<Key>)
    ensures forall a, b :: IsLeast(s, a) && IsLeast(s, b) ==> a == b
  {
    forall a, b | IsLeast(s, a) && IsLeast(s, b) ensures a == b {
      KeyLessTotal(a, b);
    }
  }

  /** Listing in order is unique. */
  lemma {:induction false} SortedUnique(a: seq<Key>, b: seq<Key>)
    requires Sorted(a) && Sorted(b)
    requires forall k :: k in a <==> k in b
    ensures a == b
  {
    if a != [] {
      assert a[0] in b;
    }
    if b != [] {
      assert b[0] in a;
    }
    if a != [] && b != [] {
      SortedHead(a);
      SortedHead(b);
      KeyLessTotal(a[0], b[0]);
      forall k ensures k in a[1..] <==> k in b[1..] {
        assert k in a <==> k in b;
      }
      SortedUnique(a[1..], b[1..]);
    }
  }

  lemma SortedHead(s: seq<Key>)
    requires Sorted(s) && s != []
    ensures Sorted(s[1..]) && s == [s[0]] + s[1..]
    ensures forall k :: k in s[1..] <==> k in s && k != s[0]
    ensures forall k :: k in s[1..] ==> KeyLess(s[0], k)
  {
    forall i | 0 <= i < |s[1..]| ensures KeyLess(s[0], s[1..][i]) {
      assert s[1..][i] == s[i + 1];
    }
    KeyLessTotal(s[0], s[0]);
    assert s == [s[0]] + s[1..];
  }

  // ---- The store's operations ----

  predicate HasPayload(m: OpsMap, k: Key) {
    k in m && m[k].payload.Some?
  }

  ghost function PayloadKeys(m: OpsMap): (r: set<Key>)
    ensures forall k :: k in r <==> HasPayload(m, k)
  {
    set k | k in m && HasPayload(m, k)
  }

  /** Whether ingesting `op` over `m` writes anything: never a downgrade. */
  predicate Accepts(m: OpsMap, k: Key, op: Op) {
    k !in m || (op.payload.Some? && m[k].payload.None?)
  }

  function Ingest(m: OpsMap, k: Key, op: Op): OpsMap {
    if Accepts(m, k, op) then m[k := op] else m
  }

  /** The units `Ingest` would add. */
  function IngestDelta(m: OpsMap, k: Key, op: Op): nat {
    if k !in m then (if op.payload.Some? then 2 else 1)
    else if m[k].payload.None? && op.payload.Some? then 1
    else 0
  }

  /** One unit per op and one more per payload. */
  ghost function Usage(m: OpsMap): nat {
    |m.Keys| + |PayloadKeys(m)|
  }

  function Units(op: Op): nat {
    if op.payload.Some? then 2 else 1
  }

  lemma AddOne(s: set<Key>, k: Key)
    requires k !in s
    ensures |s + {k}| == |s| + 1
  {
  }

  /** `usage` sums the units over the store. */
  method UsageLoop(m: OpsMap) returns (u: nat)
    ensures u == Usage(m)
  {
    u := 0;
    var todo := m.Keys;
    ghost var keys: set<Key>, payloads: set<Key> := {}, {};
    while todo != {}
      invariant forall k :: k in m.Keys <==> k in keys || k in todo
      invariant forall k :: k in keys ==> k !in todo
      invariant forall k :: k in payloads <==> k in keys && HasPayload(m, k)
      invariant u == |keys| + |payloads|
    {
      var k :| k in todo;
      u := u + Units(m[k]);
      AddOne(keys, k);
      AddOne(payloads, k);
      todo := todo - {k};
      keys := keys + {k};
      if HasPayload(m, k) {
        payloads := payloads + {k};
      }
    }
    assert keys == m.Keys;
    assert payloads == PayloadKeys(m);
  }

  /** The delta is exactly what usage grows by. */
  lemma DeltaIsGrowth(m: OpsMap, k: Key, op: Op)
    ensures Usage(Ingest(m, k, op)) == Usage(m) + IngestDelta(m, k, op)
  {
    if Accepts(m, k, op) {
      KeysGrow(m, k, op);
      PayloadsGrow(m, k, op);
    }
    hide PayloadKeys;
  }

  lemma KeysGrow(m: OpsMap, k: Key, op: Op)
    ensures |m[k := op].Keys| == |m.Keys| + if k in m then 0 else 1
  {
    if k !in m {
      AddOne(m.Keys, k);
      assert m[k := op].Keys == m.Keys + {k};
    } else {
      assert m[k := op].Keys == m.Keys;
    }
  }

  lemma PayloadsGrow(m: OpsMap, k: Key, op: Op)
    requires Accepts(m, k, op)
    ensures |PayloadKeys(m[k := op])| == |PayloadKeys(m)| + if op.payload.Some? then 1 else 0
  {
    if op.payload.Some? {
      AddOne(PayloadKeys(m), k);
      assert PayloadKeys(m[k := op]) == PayloadKeys(m) + {k};
    } else {
      assert PayloadKeys(m[k := op]) == PayloadKeys(m);
    }
  }

  function Evict(m: OpsMap, r: LogRanges): (out: OpsMap)
    ensures forall k :: k in out <==> k in m && !LR.Has(r, k)
    ensures forall k :: k in out ==> out[k] == m[k]
  {
    map k | k in m && !LR.Has(r, k) :: m[k]
  }

  function StripPayload(op: Op): Op {
    op.(payload := R.None)
  }

  function EvictPayloads(m: OpsMap, r: LogRanges): (out: OpsMap)
    ensures out.Keys == m.Keys
    ensures forall k :: k in out ==> out[k] == if LR.Has(r, k) then StripPayload(m[k]) else m[k]
  {
    map k | k in m :: if LR.Has(r, k) then StripPayload(m[k]) else m[k]
  }

  /** Fewer keys and fewer payloads cost no more. */
  lemma UsageMonotone(a: OpsMap, b: OpsMap)
    requires a.Keys <= b.Keys
    requires forall k :: k in a && a[k].payload.Some? ==> b[k].payload.Some?
    ensures Usage(a) <= Usage(b)
  {
    SubsetSize(a.Keys, b.Keys);
    SubsetSize(PayloadKeys(a), PayloadKeys(b));
  }

  lemma {:induction false} SubsetSize<T>(a: set<T>, b: set<T>)
    requires a <= b
    ensures |a| <= |b|
    ensures a != b ==> |a| < |b|
  {
    assert b == a + (b - a);
    assert |b| == |a| + |b - a|;
  }

  ghost function HeldAll(m: OpsMap): LogRanges {
    LR.OfKeys(m.Keys)
  }

  ghost function HeldPayloads(m: OpsMap): LogRanges {
    LR.OfKeys(PayloadKeys(m))
  }

  /** The part of a store within some ranges. */
  function Within(m: OpsMap, r: LogRanges): (out: OpsMap)
    ensures forall k :: k in out <==> k in m && LR.Has(r, k)
    ensures forall k :: k in out ==> out[k] == m[k]
  {
    map k | k in m && LR.Has(r, k) :: m[k]
  }
}

/** Row keys of the disk store: a log's fixed-width bytes, then its sequence number, big-endian. */
module RowKeys {
  import R = Ranges
  import opened Logs
  import opened Storage

  // ---- Big-endian sequence numbers ----

  function BigEndian(s: Seq): Bytes {
    var q1: int := s / 0x100;
    var q2 := q1 / 0x100;
    [q2 / 0x100, q2 % 0x100, q1 % 0x100, s % 0x100]
  }

  function FromBigEndian(b: Bytes): Seq
    requires |b| == 4
  {
    var b0: int, b1: int, b2: int, b3: int := b[0], b[1], b[2], b[3];
    0x100 * (0x100 * (0x100 * b0 + b1) + b2) + b3
  }

  lemma BigEndianRoundTrip(s: Seq)
    ensures |BigEndian(s)| == 4 && FromBigEndian(BigEndian(s)) == s
  {
  }

  lemma FromBigEndianRoundTrip(b: Bytes)
    requires |b| == 4
    ensures BigEndian(FromBigEndian(b)) == b
  {
  }

  // ---- Byte order ----

  predicate LexLeq(a: Bytes, b: Bytes) {
    a == [] || (b != [] && (a[0] < b[0] || (a[0] == b[0] && LexLeq(a[1..], b[1..]))))
  }

  lemma {:induction false} LexUnderPrefix(p: Bytes, a: Bytes, b: Bytes)
    ensures LexLeq(p + a, p + b) <==> LexLeq(a, b)
  {
    if p == [] {
      assert p + a == a && p + b == b;
    } else {
      LexUnderPrefix(p[1..], a, b);
      assert (p + a)[1..] == p[1..] + a && (p + b)[1..] == p[1..] + b;
    }
  }

  /** Byte order of the encodings is the order of the numbers. */
  lemma BigEndianOrder(a: Seq, b: Seq)
    ensures LexLeq(BigEndian(a), BigEndian(b)) <==> a <= b
  {
    var x, y := BigEndian(a), BigEndian(b);
    BigEndianRoundTrip(a);
    BigEndianRoundTrip(b);
    LexFour(x, y);
  }

  lemma LexFour(x: Bytes, y: Bytes)
    requires |x| == 4 && |y| == 4
    ensures LexLeq(x, y) <==> FromBigEndian(x) <= FromBigEndian(y)
  {
    assert LexLeq(x[1..][1..][1..][1..], y[1..][1..][1..][1..]);
    assert LexLeq(x[1..][1..][1..], y[1..][1..][1..]) <==> x[3] <= y[3];
    assert LexLeq(x[1..][1..], y[1..][1..]) <==> x[2] < y[2] || (x[2] == y[2] && x[3] <= y[3]);
    assert LexLeq(x[1..], y[1..]) <==> x[1] < y[1] || (x[1] == y[1] && (x[2] < y[2] || (x[2] == y[2] && x[3] <= y[3])));
  }

  // ---- Keys ----

  /** An encoding of logs as byte strings of one width. */
  datatype Codec = Codec(width: nat, write: Log -> Bytes, read: Bytes -> Option<Log>)

  /** A log the encoding holds, and gives back. */
  predicate Storable(c: Codec, log: Log) {
    |c.write(log)| == c.width && c.read(c.write(log)) == R.Some(log)
  }

  /** Whatever is read back was written so. */
  ghost predicate Faithful(c: Codec) {
    forall b: Bytes :: |b| == c.width && c.read(b).Some? ==> c.write(c.read(b).value) == b
  }

  function RowKey(c: Codec, k: Key): Bytes {
    c.write(k.log) + BigEndian(k.at)
  }

  /** The sequence number of a row, if its key is of the right length. */
  function RowSeq(c: Codec, b: Bytes): Option<Seq> {
    if |b| != c.width + 4 then R.None else R.Some(FromBigEndian(b[c.width..]))
  }

  /** The log and sequence number of a row, if its key is well formed. */
  function RowOf(c: Codec, b: Bytes): Option<Key> {
    if |b| < c.width then R.None
    else
      match c.read(b[..c.width])
      case None => R.None
      case Some(log) =>
        match RowSeq(c, b)
        case None => R.None
        case Some(s) => R.Some(Key(log, s))
  }

  lemma RowKeyParses(c: Codec, k: Key)
    requires Storable(c, k.log)
    ensures RowOf(c, RowKey(c, k)) == R.Some(k) && RowSeq(c, RowKey(c, k)) == R.Some(k.at)
  {
    BigEndianRoundTrip(k.at);
    var b := RowKey(c, k);
    assert b[..c.width] == c.write(k.log) && b[c.width..] == BigEndian(k.at);
  }

  lemma ParsedIsRowKey(c: Codec, b: Bytes)
    requires Faithful(c) && RowOf(c, b).Some?
    ensures RowKey(c, RowOf(c, b).value) == b && Storable(c, RowOf(c, b).value.log)
  {
    FromBigEndianRoundTrip(b[c.width..]);
    assert b == b[..c.width] + b[c.width..];
  }

  /** Rows of different keys do not collide. */
  lemma RowKeyInjective(c: Codec, k: Key, k': Key)
    requires Storable(c, k.log) && Storable(c, k'.log) && RowKey(c, k) == RowKey(c, k')
    ensures k == k'
  {
    RowKeyParses(c, k);
    RowKeyParses(c, k');
  }

  // ---- One log's rows are one range of keys ----

  const LOW: Bytes := [0, 0, 0, 0]
  const HIGH: Bytes := [0xff, 0xff, 0xff, 0xff]

  /** The inclusive bounds of a log's rows. */
  function LogBounds(c: Codec, log: Log): (Bytes, Bytes) {
    (c.write(log) + BigEndian(0), c.write(log) + BigEndian(R.SEQ_MAX))
  }

  predicate InBounds(b: Bytes, bounds: (Bytes, Bytes)) {
    LexLeq(bounds.0, b) && LexLeq(b, bounds.1)
  }

  lemma FourBytesBetween(b: Bytes)
    requires |b| == 4
    ensures LexLeq(LOW, b) && LexLeq(b, HIGH)
  {
    LexFour(LOW, b);
    LexFour(b, HIGH);
  }

  lemma {:induction false} BracketsPrefix(p: Bytes, b: Bytes)
    requires |b| == |p| + 4
    ensures LexLeq(p + LOW, b) && LexLeq(b, p + HIGH) <==> b[..|p|] == p
  {
    if p == [] {
      FourBytesBetween(b);
      assert p + LOW == LOW && p + HIGH == HIGH;
    } else {
      BracketsPrefix(p[1..], b[1..]);
      assert (p + LOW)[1..] == p[1..] + LOW && (p + HIGH)[1..] == p[1..] + HIGH;
      assert b[1..][..|p| - 1] == b[..|p|][1..];
      assert p == [p[0]] + p[1..];
      assert b[..|p|] == [b[0]] + b[..|p|][1..];
    }
  }

  /** The bounds bracket exactly one log's well-formed keys. */
  lemma BoundsBracketLog(c: Codec, log: Log, b: Bytes)
    requires Faithful(c) && Storable(c, log)
    ensures InBounds(b, LogBounds(c, log)) && RowSeq(c, b).Some?
            <==> RowOf(c, b).Some? && RowOf(c, b).value.log == log
  {
    assert BigEndian(0) == LOW && BigEndian(R.SEQ_MAX) == HIGH;
    if |b| == c.width + 4 {
      BracketsPrefix(c.write(log), b);
      if RowOf(c, b).Some? {
        ParsedIsRowKey(c, b);
        var k := RowOf(c, b).value;
        assert b[..c.width] == c.write(k.log);
      }
    }
  }

  /** Within one log, keys are in the order of their sequence numbers. */
  lemma RowOrder(c: Codec, log: Log, a: Seq, b: Seq)
    ensures LexLeq(RowKey(c, Key(log, a)), RowKey(c, Key(log, b))) <==> a <= b
  {
    LexUnderPrefix(c.write(log), BigEndian(a), BigEndian(b));
    BigEndianOrder(a, b);
  }
}

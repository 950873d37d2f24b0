/** The disk relay store: a key-ordered table, and an in-memory summary of it kept up to date. */
module Disk {
  import R = Ranges
  import opened Logs
  import LR = LogRanges
  import opened Storage
  import opened RowKeys
  import F = Faults
  import H = Hydrate

  /** Rows by key; a value that does not decode is `None`. */
  type Table = map<Bytes, Option<Op>>

  // ---- What the table holds ----

  predicate IsRow(c: Codec, t: Table, k: Key) {
    Storable(c, k.log) && RowKey(c, k) in t && t[RowKey(c, k)].Some?
  }

  /** The well-formed, decodable rows, as a store. */
  ghost function Contents(c: Codec, t: Table): (m: OpsMap)
    requires Faithful(c)
    ensures forall k :: k in m <==> IsRow(c, t, k)
    ensures forall k :: k in m ==> IsRow(c, t, k) && m[k] == t[RowKey(c, k)].value
  {
    var keys := set b | b in t && RowOf(c, b).Some? && IsRow(c, t, RowOf(c, b).value) :: RowOf(c, b).value;
    assert forall k :: k in keys <==> IsRow(c, t, k) by {
      forall k ensures k in keys <==> IsRow(c, t, k) {
        if IsRow(c, t, k) {
          RowKeyParses(c, k);
          assert RowOf(c, RowKey(c, k)).value == k;
        }
      }
    }
    map k | k in keys :: t[RowKey(c, k)].value
  }

  /** Every row is well formed and decodes. */
  predicate WellFormed(c: Codec, t: Table) {
    forall b :: b in t ==> RowOf(c, b).Some? && t[b].Some?
  }

  lemma SameStore(a: OpsMap, b: OpsMap)
    requires forall k :: k in a <==> k in b
    requires forall k :: k in a ==> a[k] == b[k]
    ensures a == b
  {
    assert a.Keys == b.Keys;
  }

  /** Writing a row is writing a key. */
  lemma PutContents(c: Codec, t: Table, k: Key, op: Op)
    requires Faithful(c) && Storable(c, k.log)
    ensures Contents(c, t[RowKey(c, k) := R.Some(op)]) == Contents(c, t)[k := op]
    ensures WellFormed(c, t) ==> WellFormed(c, t[RowKey(c, k) := R.Some(op)])
  {
    hide Faithful, RowKey, Storable, RowOf;
    var t' := t[RowKey(c, k) := R.Some(op)];
    forall x ensures IsRow(c, t', x) <==> IsRow(c, t, x) || x == k {
      if Storable(c, x.log) && RowKey(c, x) == RowKey(c, k) {
        RowKeyInjective(c, x, k);
      }
    }
    forall x | x in Contents(c, t') ensures Contents(c, t')[x] == Contents(c, t)[k := op][x] {
      if RowKey(c, x) == RowKey(c, k) {
        RowKeyInjective(c, x, k);
      }
    }
    SameStore(Contents(c, t'), Contents(c, t)[k := op]);
    RowKeyParses(c, k);
  }

  // ---- One log's part of an eviction ----

  predicate Hit(log: Log, r: R.Ranges, k: Key) {
    k.log == log && R.Contains(r, k.at)
  }

  function DropHits(m: OpsMap, log: Log, r: R.Ranges): (out: OpsMap)
    ensures forall k :: k in out <==> k in m && !Hit(log, r, k)
    ensures forall k :: k in out ==> out[k] == m[k]
  {
    map k | k in m && !Hit(log, r, k) :: m[k]
  }

  function StripHits(m: OpsMap, log: Log, r: R.Ranges): (out: OpsMap)
    ensures out.Keys == m.Keys
    ensures forall k :: k in out ==> out[k] == if Hit(log, r, k) then StripPayload(m[k]) else m[k]
  {
    map k | k in m :: if Hit(log, r, k) then StripPayload(m[k]) else m[k]
  }

  /** A row the eviction of `r` from `log` is about. */
  predicate HitRow(c: Codec, log: Log, r: R.Ranges, b: Bytes) {
    InBounds(b, LogBounds(c, log)) && RowSeq(c, b).Some? && R.Contains(r, RowSeq(c, b).value)
  }

  lemma HitRowIsHit(c: Codec, log: Log, r: R.Ranges, k: Key)
    requires Faithful(c) && Storable(c, log) && Storable(c, k.log)
    ensures HitRow(c, log, r, RowKey(c, k)) <==> Hit(log, r, k)
  {
    hide Faithful, RowKey, Storable, RowOf, RowSeq, R.Contains, InBounds, LogBounds;
    RowKeyParses(c, k);
    BoundsBracketLog(c, log, RowKey(c, k));
  }

  function WithoutRows(t: Table, gone: set<Bytes>): (out: Table)
    ensures forall b :: b in out <==> b in t && b !in gone
    ensures forall b :: b in out ==> out[b] == t[b]
  {
    map b | b in t && b !in gone :: t[b]
  }

  lemma RemovedContents(c: Codec, t: Table, log: Log, r: R.Ranges, gone: set<Bytes>)
    requires Faithful(c) && Storable(c, log)
    requires forall b :: b in t ==> (b in gone <==> HitRow(c, log, r, b))
    ensures Contents(c, WithoutRows(t, gone)) == DropHits(Contents(c, t), log, r)
    ensures WellFormed(c, t) ==> WellFormed(c, WithoutRows(t, gone))
  {
    hide Faithful, RowKey, Storable, HitRow, Hit;
    var t' := WithoutRows(t, gone);
    forall k ensures IsRow(c, t', k) <==> IsRow(c, t, k) && !Hit(log, r, k) {
      if Storable(c, k.log) {
        HitRowIsHit(c, log, r, k);
      }
    }
    SameStore(Contents(c, t'), DropHits(Contents(c, t), log, r));
  }

  function StripRow(v: Option<Op>): Option<Op> {
    if v.Some? then R.Some(StripPayload(v.value)) else v
  }

  function WithStripped(t: Table, changed: set<Bytes>): (out: Table)
    ensures out.Keys == t.Keys
    ensures forall b :: b in t ==> out[b] == if b in changed then StripRow(t[b]) else t[b]
  {
    map b | b in t :: if b in changed then StripRow(t[b]) else t[b]
  }

  lemma StrippedContents(c: Codec, t: Table, log: Log, r: R.Ranges, changed: set<Bytes>)
    requires Faithful(c) && Storable(c, log)
    requires forall b :: b in t && t[b].Some? ==>
               (b in changed <==> HitRow(c, log, r, b) && t[b].value.payload.Some?)
    ensures Contents(c, WithStripped(t, changed)) == StripHits(Contents(c, t), log, r)
    ensures WellFormed(c, t) ==> WellFormed(c, WithStripped(t, changed))
  {
    hide Faithful, RowKey, Storable, HitRow, Hit;
    var t' := WithStripped(t, changed);
    forall k ensures IsRow(c, t', k) <==> IsRow(c, t, k) {
    }
    forall k | IsRow(c, t, k)
      ensures t'[RowKey(c, k)].value == if Hit(log, r, k) then StripPayload(t[RowKey(c, k)].value) else t[RowKey(c, k)].value
    {
      HitRowIsHit(c, log, r, k);
      StrippedTwice(t[RowKey(c, k)].value);
    }
    SameStore(Contents(c, t'), StripHits(Contents(c, t), log, r));
  }

  lemma StrippedTwice(op: Op)
    ensures op.payload.None? ==> StripPayload(op) == op
  {
  }

  // ---- The cached summary ----

  /** The summary never claims a row or a payload the table lacks. */
  ghost predicate Sound(m: OpsMap, held: LR.LogRanges, payloads: LR.LogRanges) {
    && LR.Clean(held) && LR.Clean(payloads)
    && (forall k :: LR.Has(held, k) ==> k in m)
    && (forall k :: LR.Has(payloads, k) ==> HasPayload(m, k))
  }

  /** The summary claims exactly what the table has. */
  ghost predicate Exact(m: OpsMap, held: LR.LogRanges, payloads: LR.LogRanges) {
    && LR.Clean(held) && LR.Clean(payloads)
    && (forall k :: LR.Has(held, k) <==> k in m)
    && (forall k :: LR.Has(payloads, k) <==> HasPayload(m, k))
  }

  /** An exact summary is the reference store's own, structurally. */
  lemma ExactIsOracle(m: OpsMap, held: LR.LogRanges, payloads: LR.LogRanges)
    requires Exact(m, held, payloads)
    ensures held == HeldAll(m) && payloads == HeldPayloads(m)
  {
    hide LR.Has, LR.Clean;
    LR.CleanCanonical(held, HeldAll(m));
    LR.CleanCanonical(payloads, HeldPayloads(m));
  }

  /** Replace a log's entry, or forget it when there is nothing. */
  function SetEntry(lr: LR.LogRanges, log: Log, r: R.Ranges): LR.LogRanges {
    if r == [] then LR.Remove(lr, log) else LR.Insert(lr, log, r)
  }

  lemma SetEntryMeans(lr: LR.LogRanges, log: Log, r: R.Ranges)
    ensures forall l :: LR.Get(SetEntry(lr, log, r), l) == if l == log then r else LR.Get(lr, l)
    ensures LR.Clean(lr) ==> LR.Clean(SetEntry(lr, log, r))
  {
  }

  /** The summary of one log is right. */
  ghost predicate LogRight(m: OpsMap, held: LR.LogRanges, payloads: LR.LogRanges, log: Log) {
    && (forall s: Seq :: R.Contains(LR.Get(held, log), s) <==> Key(log, s) in m)
    && (forall s: Seq :: R.Contains(LR.Get(payloads, log), s) <==> HasPayload(m, Key(log, s)))
  }

  /** The summary of one log claims nothing. */
  ghost predicate LogSilent(held: LR.LogRanges, payloads: LR.LogRanges, log: Log) {
    LR.Get(held, log) == [] && LR.Get(payloads, log) == []
  }

  /** Only one log's entries differ. */
  ghost predicate OthersKept(held: LR.LogRanges, payloads: LR.LogRanges, held': LR.LogRanges, payloads': LR.LogRanges,
                             log: Log)
  {
    && (forall l :: l != log ==> LR.Get(held', l) == LR.Get(held, l) && LR.Get(payloads', l) == LR.Get(payloads, l))
    && (LR.Clean(held) ==> LR.Clean(held')) && (LR.Clean(payloads) ==> LR.Clean(payloads'))
  }

  /** After one log's rows changed and its summary was rebuilt, or dropped, the whole is as right as it was. */
  lemma Refreshed(m: OpsMap, m': OpsMap, held: LR.LogRanges, payloads: LR.LogRanges, held': LR.LogRanges,
                  payloads': LR.LogRanges, log: Log)
    requires OthersKept(held, payloads, held', payloads', log)
    requires forall k: Key :: k.log != log ==> (k in m' <==> k in m) && (HasPayload(m', k) <==> HasPayload(m, k))
    requires LogRight(m', held', payloads', log) || LogSilent(held', payloads', log)
    ensures Sound(m, held, payloads) ==> Sound(m', held', payloads')
    ensures Exact(m, held, payloads) && LogRight(m', held', payloads', log) ==> Exact(m', held', payloads')
  {
    hide LR.Clean, LR.Get, HasPayload, LR.Has, LogRight, LogSilent;
    forall k: Key
      ensures k.log != log ==> (LR.Has(held', k) <==> LR.Has(held, k)) && (LR.Has(payloads', k) <==> LR.Has(payloads, k))
      ensures k.log == log ==> (LR.Has(held', k) ==> k in m') && (LR.Has(payloads', k) ==> HasPayload(m', k))
      ensures k.log == log && LogRight(m', held', payloads', log) ==>
                (LR.Has(held', k) <==> k in m') && (LR.Has(payloads', k) <==> HasPayload(m', k))
    {
      RefreshedAt(m', held, payloads, held', payloads', log, k);
    }
  }

  lemma RefreshedAt(m': OpsMap, held: LR.LogRanges, payloads: LR.LogRanges, held': LR.LogRanges, payloads': LR.LogRanges,
                    log: Log, k: Key)
    requires OthersKept(held, payloads, held', payloads', log)
    requires LogRight(m', held', payloads', log) || LogSilent(held', payloads', log)
    ensures k.log != log ==> (LR.Has(held', k) <==> LR.Has(held, k)) && (LR.Has(payloads', k) <==> LR.Has(payloads, k))
    ensures k.log == log ==> (LR.Has(held', k) ==> k in m') && (LR.Has(payloads', k) ==> HasPayload(m', k))
    ensures k.log == log && LogRight(m', held', payloads', log) ==>
              (LR.Has(held', k) <==> k in m') && (LR.Has(payloads', k) <==> HasPayload(m', k))
  {
    hide LR.Clean, LR.Get, HasPayload;
    R.EmptyContainsNothing();
    assert k == Key(k.log, k.at);
  }

  // ---- The store ----

  class DiskRelayStore {
    const codec: Codec
    /** Which calls into the database fail; a failed transaction changes nothing. */
    const faults: nat -> bool
    var calls: nat
    var table: Table
    var held: LR.LogRanges
    var payloads: LR.LogRanges
    var ioErrors: nat

    ghost predicate Reliable() {
      forall n: nat :: !faults(n)
    }

    ghost function Rows(): OpsMap
      requires Faithful(codec)
      reads this
    {
      Contents(codec, table)
    }

    /** The invariant: the summary may under-report, never over-report. */
    ghost predicate Valid() reads this {
      Faithful(codec) && Sound(Rows(), held, payloads)
    }

    /** Nothing has gone wrong so far: every row is well formed, and the summary is exact. */
    ghost predicate Healthy() reads this {
      Faithful(codec) && WellFormed(codec, table) && Exact(Rows(), held, payloads)
    }

    /** A store over an existing file, before it has been scanned. */
    constructor (codec: Codec, faults: nat -> bool, table: Table)
      ensures this.codec == codec && this.faults == faults && this.table == table
      ensures held == LR.EMPTY && payloads == LR.EMPTY
    {
      this.codec, this.faults, this.calls, this.table := codec, faults, 0, table;
      this.held, this.payloads, this.ioErrors := LR.EMPTY, LR.EMPTY, 0;
    }

    method Draw() returns (failed: bool)
      modifies this`calls
      ensures Reliable() ==> !failed
    {
      failed := faults(calls);
      calls := calls + 1;
    }

    method NoteError()
      modifies this`ioErrors
    {
      ioErrors := ioErrors + 1;
    }

    // ---- Ingest ----

    /** The write itself: one transaction, nothing changed if it fails. */
    method PutRow(k: Key, op: Op) returns (ok: bool, isNew: bool, upgraded: bool)
      requires Faithful(codec) && Storable(codec, k.log)
      modifies this`table, this`calls
      ensures !ok ==> table == old(table)
      ensures ok ==> Rows() == Ingest(old(Rows()), k, op)
      ensures ok ==> (isNew <==> k !in old(Rows()))
                     && (upgraded <==> k in old(Rows()) && op.payload.Some? && old(Rows())[k].payload.None?)
      ensures WellFormed(codec, old(table)) ==> WellFormed(codec, table)
      ensures Reliable() && WellFormed(codec, old(table)) ==> ok
    {
      hide Faithful, RowKey, WellFormed, Reliable;
      ok, isNew, upgraded := false, false, false;
      var failed := Draw();
      if failed {
        return;
      }
      var key := RowKey(codec, k);
      PutContents(codec, table, k, op);
      if key !in table {
        isNew := true;
        table := table[key := R.Some(op)];
      } else if table[key].None? {
        IllFormed(codec, table, key);
        return;
      } else if table[key].value.payload.None? && op.payload.Some? {
        upgraded := true;
        table := table[key := R.Some(op)];
      }
      ok := true;
    }

    method IngestOp(k: Key, op: Op)
      requires Valid() && Storable(codec, k.log)
      modifies this`table, this`held, this`payloads, this`calls, this`ioErrors
      ensures Valid()
      ensures Rows() == old(Rows()) || Rows() == Ingest(old(Rows()), k, op)
      ensures Reliable() && old(Healthy()) ==> Healthy() && Rows() == Ingest(old(Rows()), k, op)
    {
      hide Faithful, WellFormed, Reliable, Sound, Exact, Contents, Ingest;
      ghost var m, held0, payloads0 := Rows(), held, payloads;
      var ok, isNew, upgraded := PutRow(k, op);
      if !ok {
        NoteError();
        return;
      }
      if isNew {
        held := AddSeq(held, k);
      }
      if (isNew && op.payload.Some?) || upgraded {
        payloads := AddSeq(payloads, k);
      }
      Summarised(m, k, op, held0, payloads0, held, payloads, isNew, upgraded);
    }

    // ---- Rebuilding one log's summary ----

    /** `drop_log_from_cache`: claim nothing for this log. */
    method DropLog(log: Log)
      modifies this`held, this`payloads
      ensures LogSilent(held, payloads, log) && OthersKept(old(held), old(payloads), held, payloads, log)
    {
      hide SetEntry;
      SetEntryMeans(held, log, []);
      SetEntryMeans(payloads, log, []);
      held := SetEntry(held, log, []);
      payloads := SetEntry(payloads, log, []);
    }

    /** The scan of one log's rows, which fails on a failed read or a value that does not decode. */
    method ScanLog(log: Log) returns (ok: bool, seqs: seq<Seq>, withPayload: seq<Seq>)
      requires Faithful(codec) && Storable(codec, log)
      modifies this`calls, this`ioErrors
      ensures ok ==> ScanOf(codec, table, log, RowsIn(table, LogBounds(codec, log)), seqs, withPayload)
      ensures Reliable() && WellFormed(codec, table) ==> ok
    {
      hide Faithful, Reliable, WellFormed, RowSeq, InBounds, LogBounds, Storable, ScanOf;
      ok, seqs, withPayload := false, [], [];
      var failed := Draw();
      if failed {
        return;
      }
      var rows := RowsIn(table, LogBounds(codec, log));
      var todo := rows;
      NothingScanned(codec, table, log, rows);
      while todo != {}
        invariant todo <= rows
        invariant ScanOf(codec, table, log, rows - todo, seqs, withPayload)
      {
        var b :| b in todo;
        assert rows - (todo - {b}) == (rows - todo) + {b};
        ghost var was, wasWith := seqs, withPayload;
        failed := Draw();
        if failed {
          return;
        }
        if RowSeq(codec, b).None? {
          NoteError();
        } else {
          if table[b].None? {
            IllFormed(codec, table, b);
            return;
          }
          seqs := seqs + [RowSeq(codec, b).value];
          if table[b].value.payload.Some? {
            withPayload := withPayload + [RowSeq(codec, b).value];
          }
        }
        ScansMore(codec, table, log, rows - todo, b, was, wasWith, seqs, withPayload);
        todo := todo - {b};
      }
      assert rows - {} == rows;
      ok := true;
    }

    /** `rebuild_log`: rescan one log's rows; on any failure the summary is left alone. */
    method RebuildLog(log: Log) returns (ok: bool)
      requires Faithful(codec) && Storable(codec, log)
      modifies this`held, this`payloads, this`calls, this`ioErrors
      ensures ok ==> LogRight(Rows(), held, payloads, log)
      ensures ok ==> OthersKept(old(held), old(payloads), held, payloads, log)
      ensures !ok ==> held == old(held) && payloads == old(payloads)
      ensures Reliable() && WellFormed(codec, table) ==> ok
    {
      hide Faithful, Reliable, LogRight, OthersKept, Contents, WellFormed, SetEntry, LogBounds, Storable, ScanOf,
           RowsIn;
      ghost var held0, payloads0 := held, payloads;
      var seqs, withPayload;
      ok, seqs, withPayload := ScanLog(log);
      if !ok {
        return;
      }
      var h := R.FromSeqs(seqs);
      var p := R.FromSeqs(withPayload);
      held := SetEntry(held, log, h);
      payloads := SetEntry(payloads, log, p);
      ScannedIsRight(codec, table, log, RowsIn(table, LogBounds(codec, log)), seqs, withPayload, h, p, held0, payloads0,
                     held, payloads);
    }

    /** After a committed write to one log: rebuild its summary, or, failing that, drop it. */
    method Refresh(log: Log, ghost m: OpsMap, ghost wasHealthy: bool)
      requires Faithful(codec) && Storable(codec, log) && Sound(m, held, payloads)
      requires forall k: Key :: k.log != log ==> (k in Rows() <==> k in m) && (HasPayload(Rows(), k) <==> HasPayload(m, k))
      requires wasHealthy ==> Exact(m, held, payloads) && WellFormed(codec, table)
      modifies this`held, this`payloads, this`calls, this`ioErrors
      ensures Valid()
      ensures Reliable() && wasHealthy ==> Healthy()
    {
      hide Faithful, Reliable, LogRight, OthersKept, Contents, WellFormed, Sound, Exact, HasPayload, LogSilent,
           Storable;
      ghost var held0, payloads0 := held, payloads;
      var ok := RebuildLog(log);
      if !ok {
        NoteError();
        DropLog(log);
      }
      Refreshed(m, Rows(), held0, payloads0, held, payloads, log);
    }

    // ---- Eviction ----

    /** The write that drops one log's rows in `r`. */
    method RemoveRows(log: Log, r: R.Ranges) returns (ok: bool)
      requires Faithful(codec) && Storable(codec, log)
      modifies this`table, this`calls, this`ioErrors
      ensures !ok ==> table == old(table)
      ensures ok ==> Rows() == DropHits(old(Rows()), log, r)
      ensures WellFormed(codec, old(table)) ==> WellFormed(codec, table)
      ensures Reliable() && WellFormed(codec, old(table)) ==> ok
    {
      hide Faithful, Reliable, Contents, WellFormed, RowSeq, InBounds, LogBounds, Storable, R.Contains, DropHits;
      ok := false;
      var failed := Draw();
      if failed {
        return;
      }
      var rows := RowsIn(table, LogBounds(codec, log));
      var todo := rows;
      var removals: set<Bytes> := {};
      while todo != {}
        invariant todo <= rows && table == old(table)
        invariant forall b :: b in removals <==> b in rows && b !in todo && HitRow(codec, log, r, b)
      {
        var b :| b in todo;
        if RowSeq(codec, b).None? {
          NoteError();
        } else if R.Contains(r, RowSeq(codec, b).value) {
          if table[b].None? {
            IllFormed(codec, table, b);
            return;
          }
          removals := removals + {b};
        }
        todo := todo - {b};
      }
      HitRowsAreIn(codec, table, log, r, rows);
      RemovedContents(codec, table, log, r, removals);
      table := WithoutRows(table, removals);
      ok := true;
    }

    /** The write that drops the payloads of one log's rows in `r`. */
    method StripRows(log: Log, r: R.Ranges) returns (ok: bool)
      requires Faithful(codec) && Storable(codec, log)
      modifies this`table, this`calls, this`ioErrors
      ensures !ok ==> table == old(table)
      ensures ok ==> Rows() == StripHits(old(Rows()), log, r)
      ensures WellFormed(codec, old(table)) ==> WellFormed(codec, table)
      ensures Reliable() && WellFormed(codec, old(table)) ==> ok
    {
      hide Faithful, Reliable, Contents, WellFormed, RowSeq, InBounds, LogBounds, Storable, R.Contains, StripHits;
      ok := false;
      var failed := Draw();
      if failed {
        return;
      }
      var rows := RowsIn(table, LogBounds(codec, log));
      var todo := rows;
      var updates: set<Bytes> := {};
      while todo != {}
        invariant todo <= rows && table == old(table)
        invariant forall b :: b in updates <==>
                    b in rows && b !in todo && b in table && HitRow(codec, log, r, b) && table[b].Some?
                    && table[b].value.payload.Some?
      {
        var b :| b in todo;
        if RowSeq(codec, b).None? {
          NoteError();
        } else if R.Contains(r, RowSeq(codec, b).value) {
          if table[b].None? {
            IllFormed(codec, table, b);
            return;
          }
          if table[b].value.payload.Some? {
            updates := updates + {b};
          }
        }
        todo := todo - {b};
      }
      HitRowsAreIn(codec, table, log, r, rows);
      StrippedContents(codec, table, log, r, updates);
      table := WithStripped(table, updates);
      ok := true;
    }

    method EvictLog(log: Log, r: R.Ranges)
      requires Valid() && Storable(codec, log)
      modifies this`table, this`held, this`payloads, this`calls, this`ioErrors
      ensures Valid()
      ensures Rows() == old(Rows()) || Rows() == DropHits(old(Rows()), log, r)
      ensures Reliable() && old(Healthy()) ==> Healthy() && Rows() == DropHits(old(Rows()), log, r)
    {
      hide Faithful, Reliable, Contents, WellFormed, Sound, Exact, Storable, DropHits;
      ghost var m, healthy := Rows(), Healthy();
      var ok := RemoveRows(log, r);
      if !ok {
        NoteError();
        return;
      }
      DropsOnlyLog(m, log, r);
      Refresh(log, m, healthy);
    }

    method EvictPayloadsLog(log: Log, r: R.Ranges)
      requires Valid() && Storable(codec, log)
      modifies this`table, this`held, this`payloads, this`calls, this`ioErrors
      ensures Valid()
      ensures Rows() == old(Rows()) || Rows() == StripHits(old(Rows()), log, r)
      ensures Reliable() && old(Healthy()) ==> Healthy() && Rows() == StripHits(old(Rows()), log, r)
    {
      hide Faithful, Reliable, Contents, WellFormed, Sound, Exact, Storable, StripHits;
      ghost var m, healthy := Rows(), Healthy();
      var ok := StripRows(log, r);
      if !ok {
        NoteError();
        return;
      }
      StripsOnlyLog(m, log, r);
      Refresh(log, m, healthy);
    }

    /** `evict`: log by log, each in a transaction of its own. */
    method Evict(ranges: LR.LogRanges)
      requires Valid() && AllStorable(codec, ranges)
      modifies this`table, this`held, this`payloads, this`calls, this`ioErrors
      ensures Valid()
      ensures F.Thinned(old(Rows()), Rows(), ranges)
      ensures Reliable() && old(Healthy()) ==> Healthy() && Rows() == Storage.Evict(old(Rows()), ranges)
    {
      hide Faithful, Reliable, Contents, WellFormed, Sound, Exact, Storable, DropHits, LR.Has, LR.Get, F.Thinned,
           EvictedFrom;
      var todo := LogsIn(ranges);
      ghost var m, healthy := Rows(), Healthy();
      NothingEvicted(m, ranges, todo);
      while todo != {}
        invariant todo <= LogsIn(ranges)
        invariant Valid() && F.Thinned(m, Rows(), ranges)
        invariant Reliable() && healthy ==> Healthy() && EvictedFrom(m, Rows(), ranges, LogsIn(ranges) - todo)
      {
        var log :| log in todo;
        assert LogsIn(ranges) - (todo - {log}) == (LogsIn(ranges) - todo) + {log};
        LogIsStorable(codec, ranges, log);
        var r := LR.Get(ranges, log);
        ghost var was := Rows();
        if r != [] {
          EvictLog(log, r);
        }
        EvictsMore(m, was, Rows(), ranges, LogsIn(ranges) - todo, log);
        todo := todo - {log};
      }
      EvictedAll(m, Rows(), ranges);
    }

    /** `evict_payloads`, likewise. */
    method EvictPayloads(ranges: LR.LogRanges)
      requires Valid() && AllStorable(codec, ranges)
      modifies this`table, this`held, this`payloads, this`calls, this`ioErrors
      ensures Valid()
      ensures F.Bared(old(Rows()), Rows(), ranges)
      ensures Reliable() && old(Healthy()) ==> Healthy() && Rows() == Storage.EvictPayloads(old(Rows()), ranges)
    {
      hide Faithful, Reliable, Contents, WellFormed, Sound, Exact, Storable, StripHits, LR.Has, LR.Get, F.Bared,
           StrippedFrom;
      var todo := LogsIn(ranges);
      ghost var m, healthy := Rows(), Healthy();
      NothingStripped(m, ranges, todo);
      while todo != {}
        invariant todo <= LogsIn(ranges)
        invariant Valid() && F.Bared(m, Rows(), ranges)
        invariant Reliable() && healthy ==> Healthy() && StrippedFrom(m, Rows(), ranges, LogsIn(ranges) - todo)
      {
        var log :| log in todo;
        assert LogsIn(ranges) - (todo - {log}) == (LogsIn(ranges) - todo) + {log};
        LogIsStorable(codec, ranges, log);
        var r := LR.Get(ranges, log);
        ghost var was := Rows();
        if r != [] {
          EvictPayloadsLog(log, r);
        }
        StripsMore(m, was, Rows(), ranges, LogsIn(ranges) - todo, log);
        todo := todo - {log};
      }
      StrippedAll(m, Rows(), ranges);
    }

    // ---- Reads ----

    /** `ingest_delta`, from the summary alone: exact when the summary is, and never too small. */
    method DeltaOf(k: Key, op: Op) returns (units: nat)
      requires Valid()
      ensures units == DeltaClaim(held, payloads, k, op)
      ensures IngestDelta(Rows(), k, op) <= units
      ensures Exact(Rows(), held, payloads) ==> units == IngestDelta(Rows(), k, op)
    {
      hide Contents, Faithful, LR.Has;
      if !LR.Has(held, k) {
        return if op.payload.Some? then 2 else 1;
      }
      units := if !LR.Has(payloads, k) && op.payload.Some? then 1 else 0;
    }

    /** `usage`, from the summary alone. It never over-reports, and it is right if and only if the summary is exact
        and no log holds the largest sequence number, whose range is open and counts for nothing. */
    method UsageOf() returns (units: nat)
      requires Valid()
      ensures units == UsageClaim(Rows(), held, payloads)
      ensures units <= Usage(Rows())
      ensures units == Usage(Rows()) <==> Exact(Rows(), held, payloads) && NoLargest(Rows())
    {
      hide Contents, Faithful, LR.Has, LR.Get, Exact, Usage, Counted, NoLargest;
      ghost var keys, withPayload := ClaimedKeys(Rows(), held), ClaimedKeys(Rows(), payloads);
      ClaimsAre(Rows(), held, payloads);
      var h := SumLens(held, keys);
      var p := SumLens(payloads, withPayload);
      units := h + p;
      UsageClaimMeans(Rows(), held, payloads);
    }

    /** `fetch`: whatever is readable. */
    method Fetch(ranges: LR.LogRanges) returns (ops: OpsMap)
      requires Faithful(codec) && AllStorable(codec, ranges)
      modifies this`calls, this`ioErrors
      ensures F.IsPart(ops, Rows(), ranges)
      ensures Reliable() ==> ops == Within(Rows(), ranges)
    {
      hide Faithful, Reliable, Contents, Storable, LR.Has, LR.Get, R.Contains, Hit;
      ops := map[];
      var failed := Draw();
      if failed {
        NoteError();
        return;
      }
      var todo := LogsIn(ranges);
      ghost var m := Rows();
      while todo != {}
        invariant todo <= LogsIn(ranges)
        invariant forall k :: k in ops ==> k in m && ops[k] == m[k] && LR.Has(ranges, k)
        invariant Reliable() ==> forall k :: k in m && LR.Has(ranges, k) && k.log in LogsIn(ranges) && k.log !in todo ==> k in ops
      {
        var log :| log in todo;
        LogIsStorable(codec, ranges, log);
        ghost var was := ops;
        ops := FetchLog(log, LR.Get(ranges, log), ops);
        HitIsHas(ranges, log);
        todo := todo - {log};
      }
      FetchedAll(m, ranges, ops);
    }

    method FetchLog(log: Log, r: R.Ranges, acc: OpsMap) returns (ops: OpsMap)
      requires Faithful(codec) && Storable(codec, log)
      modifies this`calls, this`ioErrors
      ensures forall k :: k in acc && !Hit(log, r, k) ==> k in ops && ops[k] == acc[k]
      ensures forall k :: k in ops && !Hit(log, r, k) ==> k in acc
      ensures forall k :: k in ops && Hit(log, r, k) ==> (k in Rows() && ops[k] == Rows()[k]) || (k in acc && ops[k] == acc[k])
      ensures Reliable() ==> forall k :: k in Rows() && Hit(log, r, k) ==> k in ops
    {
      hide Faithful, Reliable, Contents, Storable, RowSeq, RowKey, InBounds, LogBounds, R.Contains;
      ops := acc;
      if r == [] {
        R.EmptyContainsNothing();
        return;
      }
      var failed := Draw();
      if failed {
        NoteError();
        return;
      }
      var rows := RowsIn(table, LogBounds(codec, log));
      var todo := rows;
      ghost var m := Rows();
      while todo != {}
        invariant todo <= rows
        invariant forall k :: k in acc && !Hit(log, r, k) ==> k in ops && ops[k] == acc[k]
        invariant forall k :: k in ops && !Hit(log, r, k) ==> k in acc
        invariant forall k :: k in ops && Hit(log, r, k) ==> (k in m && ops[k] == m[k]) || (k in acc && ops[k] == acc[k])
        invariant Reliable() ==>
                    forall k :: k in m && Hit(log, r, k) && RowKey(codec, k) in rows && RowKey(codec, k) !in todo ==> k in ops
      {
        var b :| b in todo;
        todo := todo - {b};
        failed := Draw();
        if failed || RowSeq(codec, b).None? {
          NoteError();
          RowKeySeq(codec, table, log, b);
          continue;
        }
        var s := RowSeq(codec, b).value;
        RowOfSeq(codec, table, log, b, s);
        RowKeyOnly(codec, table, log, b, s);
        if !R.Contains(r, s) {
          continue;
        }
        if table[b].None? {
          NoteError();
        } else {
          ops := ops[Key(log, s) := table[b].value];
        }
      }
      RowsAllIn(codec, table, log, rows);
    }

    /** `held_of`: from the summary, with a marker for a log that is not held. */
    method HeldOf(logs: set<Log>) returns (h: LR.LogRanges)
      requires Valid()
      ensures F.IsHeldOf(h, Within(Rows(), held), logs)
      ensures Exact(Rows(), held, payloads) ==> F.IsHeldOf(h, Rows(), logs)
    {
      hide LR.Has, LR.Get, LR.Known, LR.Insert, Contents, Faithful, Sound, Exact;
      h := LR.EMPTY;
      var todo := logs;
      H.NothingKnown();
      while todo != {}
        invariant todo <= logs
        invariant forall log :: LR.Known(h, log) <==> log in logs && log !in todo
        invariant forall log :: log in logs && log !in todo ==> LR.Get(h, log) == LR.Get(held, log)
      {
        var log :| log in todo;
        h := LR.Insert(h, log, LR.Get(held, log));
        todo := todo - {log};
      }
      CopiedEntries(Rows(), held, payloads, logs, h);
    }

    /** `held_all`, the summary itself: what is held of the rows it claims. */
    method HeldAll() returns (h: LR.LogRanges)
      requires Valid()
      ensures h == Storage.HeldAll(Within(Rows(), held))
      ensures Exact(Rows(), held, payloads) ==> h == Storage.HeldAll(Rows())
    {
      hide Contents, Faithful;
      ClaimedIs(Rows(), held, payloads);
      h := held;
    }

    /** `held_payloads`, likewise. */
    method HeldPayloads() returns (h: LR.LogRanges)
      requires Valid()
      ensures h == Storage.HeldPayloads(Within(Rows(), payloads))
      ensures Exact(Rows(), held, payloads) ==> h == Storage.HeldPayloads(Rows())
    {
      hide Contents, Faithful;
      ClaimedIs(Rows(), held, payloads);
      h := payloads;
    }

    // ---- Opening ----

    /** `open`: scan the whole table. A row that cannot be read, is malformed or does not decode is skipped; only a
        failure to read the table at all fails the open. */
    method Open() returns (ok: bool)
      requires Faithful(codec)
      modifies this`held, this`payloads, this`calls, this`ioErrors
      ensures ok ==> Valid()
      ensures Reliable() ==> ok && Exact(Rows(), held, payloads)
      ensures Reliable() ==> held == Storage.HeldAll(Rows()) && payloads == Storage.HeldPayloads(Rows())
    {
      hide Faithful, Reliable, Contents, RowOf, Scanned, Exact, Sound;
      var failed := Draw();
      if failed {
        return false;
      }
      var todo := table.Keys;
      ghost var missed: set<Bytes> := {};
      var keys: seq<Key>, withPayload: seq<Key> := [], [];
      NothingRead(codec, table);
      while todo != {}
        invariant todo <= table.Keys && (Reliable() ==> missed == {})
        invariant forall b :: b in missed ==> b !in todo
        invariant Scanned(codec, table, table.Keys - todo, missed, keys, withPayload)
      {
        var b :| b in todo;
        assert table.Keys - (todo - {b}) == (table.Keys - todo) + {b};
        ghost var wasMissed, was, wasWith := missed, keys, withPayload;
        failed := Draw();
        if failed {
          NoteError();
          missed := missed + {b};
        } else if RowOf(codec, b).None? || table[b].None? {
          NoteError();
        } else {
          keys := keys + [RowOf(codec, b).value];
          if table[b].value.payload.Some? {
            withPayload := withPayload + [RowOf(codec, b).value];
          }
        }
        ReadsMore(codec, table, table.Keys - todo, wasMissed, b, failed, was, wasWith, keys, withPayload);
        todo := todo - {b};
      }
      assert table.Keys - {} == table.Keys;
      held := H.RangesOf(keys);
      payloads := H.RangesOf(withPayload);
      OpenedIs(codec, table, missed, keys, withPayload, held, payloads);
      if Reliable() {
        ExactIsOracle(Rows(), held, payloads);
      }
      ok := true;
    }
  }

  lemma IllFormed(c: Codec, t: Table, b: Bytes)
    requires b in t && t[b].None?
    ensures !WellFormed(c, t)
  {
  }

  /** Add one sequence number to a log's entry. */
  method AddSeq(lr: LR.LogRanges, k: Key) returns (out: LR.LogRanges)
    ensures Added(lr, out, k)
  {
    var one := R.FromSeqs([k.at]);
    var r := if LR.Known(lr, k.log) then R.Union(LR.Get(lr, k.log), one) else one;
    out := LR.Insert(lr, k.log, r);
    AddedMeans(lr, out, k, r);
  }

  ghost predicate Added(lr: LR.LogRanges, out: LR.LogRanges, k: Key) {
    && (forall x :: LR.Has(out, x) <==> LR.Has(lr, x) || x == k)
    && (LR.Clean(lr) ==> LR.Clean(out))
  }

  lemma AddedMeans(lr: LR.LogRanges, out: LR.LogRanges, k: Key, r: R.Ranges)
    requires out == LR.Insert(lr, k.log, r)
    requires forall s: Seq :: R.Contains(r, s) <==> R.Contains(LR.Get(lr, k.log), s) || s == k.at
    ensures Added(lr, out, k)
  {
    R.EmptyContainsNothing();
    assert R.Contains(r, k.at);
    forall x ensures LR.Has(out, x) <==> LR.Has(lr, x) || x == k {
      assert x == k <==> x.log == k.log && x.at == k.at;
    }
  }

  lemma Summarised(m: OpsMap, k: Key, op: Op, held: LR.LogRanges, payloads: LR.LogRanges, held': LR.LogRanges,
                   payloads': LR.LogRanges, isNew: bool, upgraded: bool)
    requires isNew <==> k !in m
    requires upgraded <==> k in m && op.payload.Some? && m[k].payload.None?
    requires if isNew then Added(held, held', k) else held' == held
    requires if (isNew && op.payload.Some?) || upgraded then Added(payloads, payloads', k) else payloads' == payloads
    ensures Sound(m, held, payloads) ==> Sound(Ingest(m, k, op), held', payloads')
    ensures Exact(m, held, payloads) ==> Exact(Ingest(m, k, op), held', payloads')
  {
    hide LR.Has, LR.Clean;
  }

  // ---- Scanning one log ----

  function RowsIn(t: Table, bounds: (Bytes, Bytes)): (r: set<Bytes>)
    ensures forall b :: b in r <==> b in t && InBounds(b, bounds)
  {
    set b | b in t && InBounds(b, bounds)
  }

  /** What has been read of `done`: the sequence numbers, and those with payloads; no row failed to decode. */
  ghost predicate ScanOf(c: Codec, t: Table, log: Log, done: set<Bytes>, seqs: seq<Seq>, withPayload: seq<Seq>) {
    && done <= t.Keys
    && (forall b :: b in done && RowSeq(c, b).Some? ==> t[b].Some?)
    && (forall s: Seq :: s in seqs <==> exists b :: b in done && RowSeq(c, b) == R.Some(s))
    && (forall s: Seq :: s in withPayload <==>
          exists b :: b in done && RowSeq(c, b) == R.Some(s) && t[b].Some? && t[b].value.payload.Some?)
  }

  lemma NothingScanned(c: Codec, t: Table, log: Log, rows: set<Bytes>)
    ensures ScanOf(c, t, log, rows - rows, [], [])
  {
  }

  lemma ScansMore(c: Codec, t: Table, log: Log, done: set<Bytes>, b: Bytes, seqs: seq<Seq>, withPayload: seq<Seq>,
                  seqs': seq<Seq>, withPayload': seq<Seq>)
    requires ScanOf(c, t, log, done, seqs, withPayload) && b in t
    requires RowSeq(c, b).None? ==> seqs' == seqs && withPayload' == withPayload
    requires RowSeq(c, b).Some? ==>
               t[b].Some? && seqs' == seqs + [RowSeq(c, b).value]
               && withPayload' == if t[b].value.payload.Some? then withPayload + [RowSeq(c, b).value] else withPayload
    ensures ScanOf(c, t, log, done + {b}, seqs', withPayload')
  {
    hide RowSeq;
    forall s: Seq ensures s in seqs' <==> exists x :: x in done + {b} && RowSeq(c, x) == R.Some(s) {
      if RowSeq(c, b) == R.Some(s) {
        assert b in done + {b};
      }
      if s in seqs {
        var x :| x in done && RowSeq(c, x) == R.Some(s);
        assert x in done + {b};
      }
    }
    forall s: Seq
      ensures s in withPayload' <==>
              exists x :: x in done + {b} && RowSeq(c, x) == R.Some(s) && t[x].Some? && t[x].value.payload.Some?
    {
      if RowSeq(c, b) == R.Some(s) {
        assert b in done + {b};
      }
      if s in withPayload {
        var x :| x in done && RowSeq(c, x) == R.Some(s) && t[x].Some? && t[x].value.payload.Some?;
        assert x in done + {b};
      }
    }
  }

  /** A log's rows and sequence numbers, one for one. */
  lemma RowOfSeq(c: Codec, t: Table, log: Log, b: Bytes, s: Seq)
    requires Faithful(c) && Storable(c, log)
    ensures b in t && InBounds(b, LogBounds(c, log)) && RowSeq(c, b) == R.Some(s) <==> b in t && b == RowKey(c, Key(log, s))
  {
    RowKeyParses(c, Key(log, s));
    BoundsBracketLog(c, log, RowKey(c, Key(log, s)));
    if RowSeq(c, b) == R.Some(s) && InBounds(b, LogBounds(c, log)) {
      BoundsBracketLog(c, log, b);
      ParsedIsRowKey(c, b);
    }
  }

  lemma ScannedAt(c: Codec, t: Table, log: Log, rows: set<Bytes>, seqs: seq<Seq>, withPayload: seq<Seq>, s: Seq)
    requires Faithful(c) && Storable(c, log)
    requires rows == RowsIn(t, LogBounds(c, log)) && ScanOf(c, t, log, rows, seqs, withPayload)
    ensures s in seqs <==> Key(log, s) in Contents(c, t)
    ensures s in withPayload <==> HasPayload(Contents(c, t), Key(log, s))
  {
    hide Faithful, Storable, RowSeq, RowKey, InBounds, LogBounds;
    var b := RowKey(c, Key(log, s));
    RowOfSeq(c, t, log, b, s);
    if s in seqs {
      var x :| x in rows && RowSeq(c, x) == R.Some(s);
      RowOfSeq(c, t, log, x, s);
    }
    if s in withPayload {
      var x :| x in rows && RowSeq(c, x) == R.Some(s) && t[x].Some? && t[x].value.payload.Some?;
      RowOfSeq(c, t, log, x, s);
    }
  }

  lemma ScannedIsRight(c: Codec, t: Table, log: Log, rows: set<Bytes>, seqs: seq<Seq>, withPayload: seq<Seq>,
                       h: R.Ranges, p: R.Ranges, held: LR.LogRanges, payloads: LR.LogRanges, held': LR.LogRanges,
                       payloads': LR.LogRanges)
    requires Faithful(c) && Storable(c, log)
    requires rows == RowsIn(t, LogBounds(c, log)) && ScanOf(c, t, log, rows, seqs, withPayload)
    requires forall s: Seq :: R.Contains(h, s) <==> s in seqs
    requires forall s: Seq :: R.Contains(p, s) <==> s in withPayload
    requires held' == SetEntry(held, log, h) && payloads' == SetEntry(payloads, log, p)
    ensures LogRight(Contents(c, t), held', payloads', log)
    ensures OthersKept(held, payloads, held', payloads', log)
  {
    hide Faithful, Storable, SetEntry, R.Contains, ScanOf, RowsIn, LogBounds, HasPayload, Contents, LR.Clean, LR.Get;
    SetEntryMeans(held, log, h);
    SetEntryMeans(payloads, log, p);
    forall s: Seq
      ensures R.Contains(h, s) <==> Key(log, s) in Contents(c, t)
      ensures R.Contains(p, s) <==> HasPayload(Contents(c, t), Key(log, s))
    {
      ScannedAt(c, t, log, rows, seqs, withPayload, s);
    }
  }

  lemma HitRowsAreIn(c: Codec, t: Table, log: Log, r: R.Ranges, rows: set<Bytes>)
    requires rows == RowsIn(t, LogBounds(c, log))
    ensures forall b :: b in t && HitRow(c, log, r, b) ==> b in rows
  {
  }

  lemma DropsOnlyLog(m: OpsMap, log: Log, r: R.Ranges)
    ensures forall k: Key :: k.log != log ==>
              (k in DropHits(m, log, r) <==> k in m) && (HasPayload(DropHits(m, log, r), k) <==> HasPayload(m, k))
  {
  }

  lemma StripsOnlyLog(m: OpsMap, log: Log, r: R.Ranges)
    ensures forall k: Key :: k.log != log ==>
              (k in StripHits(m, log, r) <==> k in m) && (HasPayload(StripHits(m, log, r), k) <==> HasPayload(m, k))
  {
  }

  // ---- Whole evictions ----

  predicate AllStorable(c: Codec, lr: LR.LogRanges) {
    forall ch, a :: ch in lr && a in lr[ch] ==> Storable(c, Log(ch, a))
  }

  function LogsIn(lr: LR.LogRanges): (r: set<Log>)
    ensures forall log :: log in r <==> LR.Known(lr, log)
  {
    var r := set ch, a | ch in lr && a in lr[ch] :: Log(ch, a);
    assert forall log :: LR.Known(lr, log) ==> log in r by {
      forall log | LR.Known(lr, log) ensures log in r {
        assert log == Log(log.channel, log.author);
      }
    }
    r
  }

  lemma LogIsStorable(c: Codec, lr: LR.LogRanges, log: Log)
    requires AllStorable(c, lr) && log in LogsIn(lr)
    ensures Storable(c, log)
  {
    assert log == Log(log.channel, log.author);
  }

  /** The ranges' part under the logs done is gone. */
  ghost predicate EvictedFrom(m: OpsMap, m': OpsMap, ranges: LR.LogRanges, done: set<Log>) {
    && (forall k :: k in m' <==> k in m && !(k.log in done && LR.Has(ranges, k)))
    && (forall k :: k in m' ==> m'[k] == m[k])
  }

  lemma NothingEvicted(m: OpsMap, ranges: LR.LogRanges, logs: set<Log>)
    ensures F.Thinned(m, m, ranges) && EvictedFrom(m, m, ranges, logs - logs)
  {
  }

  lemma HitIsHas(ranges: LR.LogRanges, log: Log)
    ensures forall k :: Hit(log, LR.Get(ranges, log), k) <==> k.log == log && LR.Has(ranges, k)
  {
  }

  lemma EvictsMore(m: OpsMap, was: OpsMap, now: OpsMap, ranges: LR.LogRanges, done: set<Log>, log: Log)
    requires now == was || now == DropHits(was, log, LR.Get(ranges, log))
    ensures F.Thinned(m, was, ranges) ==> F.Thinned(m, now, ranges)
    ensures EvictedFrom(m, was, ranges, done) && now == DropHits(was, log, LR.Get(ranges, log)) ==>
              EvictedFrom(m, now, ranges, done + {log})
    ensures EvictedFrom(m, was, ranges, done) && LR.Get(ranges, log) == [] ==> EvictedFrom(m, now, ranges, done + {log})
  {
    HitIsHas(ranges, log);
    R.EmptyContainsNothing();
    assert LR.Get(ranges, log) == [] ==> forall k: Key :: k.log == log ==> !LR.Has(ranges, k);
    hide LR.Has, Hit, LR.Get;
  }

  lemma EvictedAll(m: OpsMap, now: OpsMap, ranges: LR.LogRanges)
    ensures EvictedFrom(m, now, ranges, LogsIn(ranges) - {}) ==> now == Storage.Evict(m, ranges)
  {
    if EvictedFrom(m, now, ranges, LogsIn(ranges) - {}) {
      forall k: Key | LR.Has(ranges, k) ensures k.log in LogsIn(ranges) {
        HasIsKnown(ranges, k);
      }
      hide LR.Has;
      SameStore(now, Storage.Evict(m, ranges));
    }
  }

  lemma HasIsKnown(lr: LR.LogRanges, k: Key)
    requires LR.Has(lr, k)
    ensures LR.Known(lr, k.log)
  {
    R.EmptyContainsNothing();
  }

  ghost predicate StrippedFrom(m: OpsMap, m': OpsMap, ranges: LR.LogRanges, done: set<Log>) {
    && m'.Keys == m.Keys
    && forall k :: k in m ==> m'[k] == if k.log in done && LR.Has(ranges, k) then StripPayload(m[k]) else m[k]
  }

  lemma NothingStripped(m: OpsMap, ranges: LR.LogRanges, logs: set<Log>)
    ensures F.Bared(m, m, ranges) && StrippedFrom(m, m, ranges, logs - logs)
  {
  }

  lemma StripsMore(m: OpsMap, was: OpsMap, now: OpsMap, ranges: LR.LogRanges, done: set<Log>, log: Log)
    requires now == was || now == StripHits(was, log, LR.Get(ranges, log))
    ensures F.Bared(m, was, ranges) ==> F.Bared(m, now, ranges)
    ensures StrippedFrom(m, was, ranges, done) && now == StripHits(was, log, LR.Get(ranges, log)) ==>
              StrippedFrom(m, now, ranges, done + {log})
    ensures StrippedFrom(m, was, ranges, done) && LR.Get(ranges, log) == [] ==> StrippedFrom(m, now, ranges, done + {log})
  {
    HitIsHas(ranges, log);
    R.EmptyContainsNothing();
    assert LR.Get(ranges, log) == [] ==> forall k: Key :: k.log == log ==> !LR.Has(ranges, k);
    hide LR.Has, Hit, LR.Get;
  }

  lemma StrippedAll(m: OpsMap, now: OpsMap, ranges: LR.LogRanges)
    ensures StrippedFrom(m, now, ranges, LogsIn(ranges) - {}) ==> now == Storage.EvictPayloads(m, ranges)
  {
    if StrippedFrom(m, now, ranges, LogsIn(ranges) - {}) {
      forall k: Key | LR.Has(ranges, k) ensures k.log in LogsIn(ranges) {
        HasIsKnown(ranges, k);
      }
      hide LR.Has;
      SameStore(now, Storage.EvictPayloads(m, ranges));
    }
  }

  // ---- Fetching ----

  lemma RowKeySeq(c: Codec, t: Table, log: Log, b: Bytes)
    requires Faithful(c) && Storable(c, log)
    ensures RowSeq(c, b).None? ==> forall s: Seq :: b != RowKey(c, Key(log, s))
  {
    forall s: Seq ensures RowSeq(c, b).None? ==> b != RowKey(c, Key(log, s)) {
      RowKeyParses(c, Key(log, s));
    }
  }

  lemma RowKeyOnly(c: Codec, t: Table, log: Log, b: Bytes, s: Seq)
    requires Faithful(c) && Storable(c, log) && b == RowKey(c, Key(log, s))
    ensures forall k: Key :: k.log == log && RowKey(c, k) == b ==> k == Key(log, s)
  {
    forall k: Key | k.log == log && RowKey(c, k) == b ensures k == Key(log, s) {
      RowKeyInjective(c, k, Key(log, s));
    }
  }

  lemma RowsAllIn(c: Codec, t: Table, log: Log, rows: set<Bytes>)
    requires Faithful(c) && Storable(c, log) && rows == RowsIn(t, LogBounds(c, log))
    ensures forall k: Key :: k in Contents(c, t) && k.log == log ==> RowKey(c, k) in rows
  {
    forall k: Key | k in Contents(c, t) && k.log == log ensures RowKey(c, k) in rows {
      RowKeyParses(c, k);
      BoundsBracketLog(c, log, RowKey(c, k));
    }
  }

  lemma FetchedAll(m: OpsMap, ranges: LR.LogRanges, ops: OpsMap)
    requires forall k :: k in ops ==> k in m && ops[k] == m[k] && LR.Has(ranges, k)
    ensures (forall k :: k in m && LR.Has(ranges, k) && k.log in LogsIn(ranges) ==> k in ops) ==> ops == Within(m, ranges)
  {
    forall k: Key | LR.Has(ranges, k) ensures k.log in LogsIn(ranges) {
      HasIsKnown(ranges, k);
    }
    hide LR.Has;
    if forall k :: k in m && LR.Has(ranges, k) && k.log in LogsIn(ranges) ==> k in ops {
      SameStore(ops, Within(m, ranges));
    }
  }

  // ---- Counting ----

  ghost function ClaimedKeys(m: OpsMap, lr: LR.LogRanges): (r: set<Key>)
    ensures forall k :: k in r <==> k in m && LR.Has(lr, k)
  {
    set k | k in m && LR.Has(lr, k)
  }

  /** The claimed keys that `usage` counts: those of logs whose ranges are closed. */
  ghost function Counted(lr: LR.LogRanges, keys: set<Key>, logs: set<Log>): (r: set<Key>)
    ensures forall k :: k in r <==> k in keys && k.log in logs && !R.IsOpen(LR.Get(lr, k.log))
  {
    set k | k in keys && k.log in logs && !R.IsOpen(LR.Get(lr, k.log))
  }

  lemma Pick<T>(s: set<T>) returns (x: T)
    requires s != {}
    ensures x in s
  {
    x :| x in s;
  }

  lemma {:induction false} ImageSize(log: Log, xs: set<int>, ks: set<Key>)
    requires forall x :: x in xs ==> 0 <= x <= R.SEQ_MAX
    requires forall k: Key :: k in ks <==> k.log == log && k.at in xs
    ensures |ks| == |xs|
    decreases xs
  {
    if xs == {} {
      assert ks == {};
    } else {
      var x := Pick(xs);
      var k := Key(log, x);
      assert k in ks;
      forall j: Key ensures j in ks - {k} <==> j.log == log && j.at in xs - {x} {
      }
      ImageSize(log, xs - {x}, ks - {k});
    }
  }

  /** One closed log counts its cardinality. */
  lemma LogCount(lr: LR.LogRanges, keys: set<Key>, log: Log)
    requires forall k :: LR.Has(lr, k) <==> k in keys
    ensures match R.Len(LR.Get(lr, log))
            case None => Counted(lr, keys, {log}) == {}
            case Some(n) => |Counted(lr, keys, {log})| == n
  {
    var r := LR.Get(lr, log);
    if !R.IsOpen(r) {
      R.LenIsCardinality(r);
      forall k: Key ensures k in Counted(lr, keys, {log}) <==> k.log == log && k.at in R.Members(r) {
        assert LR.Has(lr, k) <==> k in keys;
      }
      ImageSize(log, R.Members(r), Counted(lr, keys, {log}));
    }
  }

  lemma CountedMore(lr: LR.LogRanges, keys: set<Key>, done: set<Log>, log: Log)
    requires log !in done
    ensures |Counted(lr, keys, done + {log})| == |Counted(lr, keys, done)| + |Counted(lr, keys, {log})|
  {
    hide LR.Get, R.IsOpen;
    var a, b := Counted(lr, keys, done), Counted(lr, keys, {log});
    assert Counted(lr, keys, done + {log}) == a + b;
    assert a !! b;
  }

  /** The sum over logs of their ranges' lengths, an open one counting for nothing. */
  method SumLens(lr: LR.LogRanges, ghost keys: set<Key>) returns (n: int)
    requires forall k :: LR.Has(lr, k) <==> k in keys
    ensures n == |Counted(lr, keys, LogsIn(lr))|
  {
    hide Counted, LR.Has, LR.Get, R.Len;
    n := 0;
    var todo := LogsIn(lr);
    CountedNone(lr, keys);
    while todo != {}
      invariant todo <= LogsIn(lr)
      invariant n == |Counted(lr, keys, LogsIn(lr) - todo)|
    {
      var log :| log in todo;
      assert LogsIn(lr) - (todo - {log}) == (LogsIn(lr) - todo) + {log};
      LogCount(lr, keys, log);
      CountedMore(lr, keys, LogsIn(lr) - todo, log);
      var len := R.Len(LR.Get(lr, log));
      n := n + if len.Some? then len.value else 0;
      todo := todo - {log};
    }
    assert LogsIn(lr) - {} == LogsIn(lr);
  }

  lemma CountedNone(lr: LR.LogRanges, keys: set<Key>)
    ensures Counted(lr, keys, LogsIn(lr) - LogsIn(lr)) == {}
  {
  }

  lemma ClaimsAre(m: OpsMap, held: LR.LogRanges, payloads: LR.LogRanges)
    requires Sound(m, held, payloads)
    ensures forall k :: LR.Has(held, k) <==> k in ClaimedKeys(m, held)
    ensures forall k :: LR.Has(payloads, k) <==> k in ClaimedKeys(m, payloads)
    ensures ClaimedKeys(m, held) <= m.Keys && ClaimedKeys(m, payloads) <= PayloadKeys(m)
    ensures Exact(m, held, payloads) ==> ClaimedKeys(m, held) == m.Keys && ClaimedKeys(m, payloads) == PayloadKeys(m)
  {
    hide LR.Has, LR.Clean;
  }

  /** A log's ranges are open exactly when they hold the largest sequence number. */
  lemma OpenHoldsMax(lr: LR.LogRanges, log: Log)
    ensures R.IsOpen(LR.Get(lr, log)) <==> LR.Has(lr, Key(log, R.SEQ_MAX))
  {
    R.FlipAll(LR.Get(lr, log), false, R.SEQ_MAX);
  }

  /** What the summary's lengths add up to. */
  ghost function UsageClaim(m: OpsMap, held: LR.LogRanges, payloads: LR.LogRanges): nat {
    |Counted(held, ClaimedKeys(m, held), LogsIn(held))| + |Counted(payloads, ClaimedKeys(m, payloads), LogsIn(payloads))|
  }

  /** What the summary says an op would add. */
  function DeltaClaim(held: LR.LogRanges, payloads: LR.LogRanges, k: Key, op: Op): nat {
    if !LR.Has(held, k) then (if op.payload.Some? then 2 else 1)
    else if !LR.Has(payloads, k) && op.payload.Some? then 1
    else 0
  }

  ghost predicate NoLargest(m: OpsMap) {
    forall k :: k in m ==> k.at != R.SEQ_MAX
  }

  /** The claim never exceeds the real usage, and equals it exactly when nothing is missing from the summary and no
      range is open. */
  lemma UsageClaimMeans(m: OpsMap, held: LR.LogRanges, payloads: LR.LogRanges)
    requires Sound(m, held, payloads)
    ensures UsageClaim(m, held, payloads) <= Usage(m)
    ensures UsageClaim(m, held, payloads) == Usage(m) <==> Exact(m, held, payloads) && NoLargest(m)
  {
    var keys, withPayload := ClaimedKeys(m, held), ClaimedKeys(m, payloads);
    ClaimsAre(m, held, payloads);
    hide LR.Has, LR.Get, R.IsOpen, LogsIn, Sound, Exact, NoLargest;
    var h, p := Counted(held, keys, LogsIn(held)), Counted(payloads, withPayload, LogsIn(payloads));
    assert h <= keys && p <= withPayload;
    SubsetSize(h, m.Keys);
    SubsetSize(p, PayloadKeys(m));
    AllCountedIff(m, held, payloads);
  }

  lemma AllCountedIff(m: OpsMap, held: LR.LogRanges, payloads: LR.LogRanges)
    requires Sound(m, held, payloads)
    ensures Counted(held, ClaimedKeys(m, held), LogsIn(held)) == m.Keys
            && Counted(payloads, ClaimedKeys(m, payloads), LogsIn(payloads)) == PayloadKeys(m)
            <==> Exact(m, held, payloads) && NoLargest(m)
  {
    var keys, withPayload := ClaimedKeys(m, held), ClaimedKeys(m, payloads);
    ClaimsAre(m, held, payloads);
    ClaimsAll(m, held, payloads);
    hide LR.Has, LR.Get, R.IsOpen, LogsIn, Sound, Exact;
    var h, p := Counted(held, keys, LogsIn(held)), Counted(payloads, withPayload, LogsIn(payloads));
    if h == m.Keys && p == PayloadKeys(m) {
      assert h <= keys && p <= withPayload;
      ClosedIffNoMax(m.Keys, held, keys);
    }
    if Exact(m, held, payloads) && NoLargest(m) {
      ClosedIffNoMax(m.Keys, held, keys);
      ClosedIffNoMax(PayloadKeys(m), payloads, withPayload);
    }
  }

  lemma ClaimsAll(m: OpsMap, held: LR.LogRanges, payloads: LR.LogRanges)
    requires Sound(m, held, payloads)
    ensures ClaimedKeys(m, held) == m.Keys && ClaimedKeys(m, payloads) == PayloadKeys(m) ==> Exact(m, held, payloads)
  {
    hide LR.Has, LR.Clean;
    if ClaimedKeys(m, held) == m.Keys && ClaimedKeys(m, payloads) == PayloadKeys(m) {
      forall k | k in m ensures LR.Has(held, k) {
        assert k in ClaimedKeys(m, held);
      }
      forall k | HasPayload(m, k) ensures LR.Has(payloads, k) {
        assert k in ClaimedKeys(m, payloads);
      }
    }
  }

  /** A sound summary is structurally that of the rows it claims. */
  lemma ClaimedIs(m: OpsMap, held: LR.LogRanges, payloads: LR.LogRanges)
    requires Sound(m, held, payloads)
    ensures held == HeldAll(Within(m, held)) && payloads == HeldPayloads(Within(m, payloads))
    ensures Exact(m, held, payloads) ==> held == HeldAll(m) && payloads == HeldPayloads(m)
  {
    hide LR.Has, LR.Clean;
    LR.CleanCanonical(held, HeldAll(Within(m, held)));
    LR.CleanCanonical(payloads, HeldPayloads(Within(m, payloads)));
    if Exact(m, held, payloads) {
      ExactIsOracle(m, held, payloads);
    }
  }

  /** All claimed keys are counted exactly when none has the largest sequence number. */
  lemma ClosedIffNoMax(all: set<Key>, lr: LR.LogRanges, keys: set<Key>)
    requires keys == all && forall k :: LR.Has(lr, k) <==> k in keys
    ensures Counted(lr, keys, LogsIn(lr)) == all <==> forall k :: k in all ==> k.at != R.SEQ_MAX
  {
    hide LR.Has, LR.Get, R.IsOpen, LogsIn;
    var counted := Counted(lr, keys, LogsIn(lr));
    forall k | k in all ensures k.log in LogsIn(lr) && (R.IsOpen(LR.Get(lr, k.log)) <==> Key(k.log, R.SEQ_MAX) in all) {
      KeyIsKnown(lr, k);
      OpenHoldsMax(lr, k.log);
    }
    if counted == all {
      forall k | k in all ensures k.at != R.SEQ_MAX {
        assert k in counted;
        assert k == Key(k.log, k.at);
      }
    }
    if forall k :: k in all ==> k.at != R.SEQ_MAX {
      forall k | k in all ensures k in counted {
        assert Key(k.log, R.SEQ_MAX).at == R.SEQ_MAX;
      }
      assert counted <= all;
    }
  }

  lemma KeyIsKnown(lr: LR.LogRanges, k: Key)
    requires LR.Has(lr, k)
    ensures k.log in LogsIn(lr)
  {
    HasIsKnown(lr, k);
  }

  lemma CopiedEntries(m: OpsMap, held: LR.LogRanges, payloads: LR.LogRanges, logs: set<Log>, h: LR.LogRanges)
    requires Sound(m, held, payloads)
    requires forall log :: LR.Known(h, log) <==> log in logs
    requires forall log :: log in logs ==> LR.Get(h, log) == LR.Get(held, log)
    ensures F.IsHeldOf(h, Within(m, held), logs)
    ensures Exact(m, held, payloads) ==> F.IsHeldOf(h, m, logs)
  {
    R.EmptyContainsNothing();
    forall k: Key ensures LR.Has(h, k) <==> LR.Has(held, k) && k.log in logs {
      assert k.log !in logs ==> LR.Get(h, k.log) == [];
    }
    hide LR.Has, LR.Clean;
  }

  // ---- Scanning the whole table ----

  /** What has been read of the rows done and not missed. */
  ghost predicate Scanned(c: Codec, t: Table, done: set<Bytes>, missed: set<Bytes>, keys: seq<Key>, withPayload: seq<Key>) {
    && done <= t.Keys
    && (forall k :: k in keys <==> exists b :: b in done && b !in missed && RowOf(c, b) == R.Some(k) && t[b].Some?)
    && (forall k :: k in withPayload <==>
          exists b :: b in done && b !in missed && RowOf(c, b) == R.Some(k) && t[b].Some? && t[b].value.payload.Some?)
  }

  lemma NothingRead(c: Codec, t: Table)
    ensures Scanned(c, t, t.Keys - t.Keys, {}, [], [])
  {
  }

  lemma ReadsMore(c: Codec, t: Table, done: set<Bytes>, missed: set<Bytes>, b: Bytes, failed: bool, keys: seq<Key>,
                  withPayload: seq<Key>, keys': seq<Key>, withPayload': seq<Key>)
    requires Scanned(c, t, done, missed, keys, withPayload) && b in t && b !in done
    requires failed || RowOf(c, b).None? || t[b].None? ==> keys' == keys && withPayload' == withPayload
    requires !(failed || RowOf(c, b).None? || t[b].None?) ==>
               keys' == keys + [RowOf(c, b).value]
               && withPayload' == if t[b].value.payload.Some? then withPayload + [RowOf(c, b).value] else withPayload
    requires !failed ==> b !in missed
    ensures Scanned(c, t, done + {b}, if failed then missed + {b} else missed, keys', withPayload')
  {
    hide RowOf;
    var missed' := if failed then missed + {b} else missed;
    var all := done + {b};
    forall k ensures k in keys' <==> exists x :: x in all && x !in missed' && RowOf(c, x) == R.Some(k) && t[x].Some? {
      if RowOf(c, b) == R.Some(k) {
        assert b in all;
      }
      if k in keys {
        var x :| x in done && x !in missed && RowOf(c, x) == R.Some(k) && t[x].Some?;
        assert x in all && x !in missed';
      }
    }
    forall k
      ensures k in withPayload' <==>
              exists x :: x in all && x !in missed' && RowOf(c, x) == R.Some(k) && t[x].Some? && t[x].value.payload.Some?
    {
      if RowOf(c, b) == R.Some(k) {
        assert b in all;
      }
      if k in withPayload {
        var x :| x in done && x !in missed && RowOf(c, x) == R.Some(k) && t[x].Some? && t[x].value.payload.Some?;
        assert x in all && x !in missed';
      }
    }
  }

  lemma RowOfIs(c: Codec, t: Table, b: Bytes, k: Key)
    requires Faithful(c)
    ensures RowOf(c, b) == R.Some(k) <==> Storable(c, k.log) && b == RowKey(c, k)
  {
    if RowOf(c, b) == R.Some(k) {
      ParsedIsRowKey(c, b);
    }
    if Storable(c, k.log) {
      RowKeyParses(c, k);
    }
  }

  lemma ReadAt(c: Codec, t: Table, missed: set<Bytes>, keys: seq<Key>, withPayload: seq<Key>, k: Key)
    requires Faithful(c) && Scanned(c, t, t.Keys, missed, keys, withPayload)
    ensures k in keys <==> k in Contents(c, t) && RowKey(c, k) !in missed
    ensures k in withPayload <==> HasPayload(Contents(c, t), k) && RowKey(c, k) !in missed
  {
    hide Faithful, Storable, RowOf, RowKey;
    RowOfIs(c, t, RowKey(c, k), k);
    if k in keys {
      var x :| x in t.Keys && x !in missed && RowOf(c, x) == R.Some(k) && t[x].Some?;
      RowOfIs(c, t, x, k);
    }
    if k in withPayload {
      var x :| x in t.Keys && x !in missed && RowOf(c, x) == R.Some(k) && t[x].Some? && t[x].value.payload.Some?;
      RowOfIs(c, t, x, k);
    }
  }

  lemma OpenedIs(c: Codec, t: Table, missed: set<Bytes>, keys: seq<Key>, withPayload: seq<Key>, held: LR.LogRanges,
                 payloads: LR.LogRanges)
    requires Faithful(c) && Scanned(c, t, t.Keys, missed, keys, withPayload)
    requires held == LR.OfKeys(set k | k in keys) && payloads == LR.OfKeys(set k | k in withPayload)
    ensures Sound(Contents(c, t), held, payloads)
    ensures missed == {} ==> Exact(Contents(c, t), held, payloads)
  {
    hide Faithful, Scanned, LR.Has, LR.Clean, LR.OfKeys, HasPayload, Contents;
    forall k
      ensures LR.Has(held, k) <==> k in Contents(c, t) && RowKey(c, k) !in missed
      ensures LR.Has(payloads, k) <==> HasPayload(Contents(c, t), k) && RowKey(c, k) !in missed
    {
      ReadAt(c, t, missed, keys, withPayload, k);
    }
  }
}

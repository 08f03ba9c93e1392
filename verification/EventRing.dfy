/** The ring of consumed telemetry records: 1024 fixed rows, the oldest overwritten. */
module EventRing {
  import opened RuleTypes
  import opened Sequences

  const PAYLOAD: nat := 80
  const RING: nat := 1024

  type Row = s: seq<byte> | |s| == PAYLOAD witness seq(PAYLOAD, _ => 0)
  type Record = seq<byte>

  function Zeros(n: nat): seq<byte> { seq(n, _ => 0) }

  /** A record copied over the front of a row: what lies behind it is kept. */
  function Over(record: Record, row: Row): Row
    requires |record| <= PAYLOAD
  {
    record + row[|record|..]
  }

  /** Records the sink accepts. */
  predicate Fits(record: Record) { 0 < |record| <= PAYLOAD }

  ghost predicate Loggable(log: seq<Record>) { forall i :: 0 <= i < |log| ==> Fits(log[i]) }

  /** Row k after a whole history of accepted records, the i-th written to row i % 1024. */
  ghost function RowAfter(log: seq<Record>, k: nat): Row
    requires Loggable(log)
  {
    if |log| == 0 then Zeros(PAYLOAD)
    else
      var last := |log| - 1;
      var before := RowAfter(log[..last], k);
      if last % RING == k then Over(log[last], before) else before
  }

  /** What record i looked like in its row when it was written. */
  ghost function Written(log: seq<Record>, i: nat): Row
    requires Loggable(log) && i < |log|
  {
    RowAfter(log[..i + 1], i % RING)
  }

  lemma Appended(log: seq<Record>, record: Record)
    requires Loggable(log) && Fits(record)
    ensures Loggable(log + [record])
    ensures forall k :: RowAfter(log + [record], k) ==
              if |log| % RING == k then Over(record, RowAfter(log, k)) else RowAfter(log, k)
  {
    assert (log + [record])[..|log|] == log;
  }

  /** A row is not touched again for 1024 records. */
  lemma {:induction false} RowStays(log: seq<Record>, i: nat)
    requires Loggable(log) && i < |log| <= i + RING
    ensures RowAfter(log, i % RING) == Written(log, i)
  {
    if |log| == i + 1 {
      assert log[..i + 1] == log;
    } else {
      var last := |log| - 1;
      RowStays(log[..last], i);
      assert log[..last][..i + 1] == log[..i + 1];
      DistinctRows(i, last);
    }
  }

  lemma DistinctRows(i: nat, j: nat)
    requires i < j < i + RING
    ensures i % RING != j % RING
  {
  }

  /** The last n records of the history as a flush shows them, cut to `size` bytes each. */
  ghost function Shown(log: seq<Record>, n: nat, size: nat): seq<seq<byte>>
    requires Loggable(log) && n <= |log| && size <= PAYLOAD
  {
    seq(n, i requires 0 <= i < n => Written(log, |log| - n + i)[..size])
  }

  /** The same, were every record zero-extended: the unbounded log a reader expects. */
  ghost function Expected(log: seq<Record>, n: nat, size: nat): seq<seq<byte>>
    requires Loggable(log) && n <= |log| && size <= PAYLOAD
  {
    seq(n, i requires 0 <= i < n => (log[|log| - n + i] + Zeros(PAYLOAD))[..size])
  }

  function Min(a: nat, b: nat): nat { if a < b then a else b }

  /** Byte b as last written at the place of record i: the record's own, else what the record 1024
      earlier left there, else the zero the ring started with. */
  ghost function LastByte(log: seq<Record>, i: nat, b: nat): byte
    requires Loggable(log) && i < |log|
  {
    if b < |log[i]| then log[i][b] else if i < RING then 0 else LastByte(log, i - RING, b)
  }

  /** The bytes behind record i, up to `size`. */
  ghost function Tail(log: seq<Record>, i: nat, size: nat): seq<byte>
    requires Loggable(log) && i < |log| && size <= PAYLOAD
  {
    if |log[i]| >= size then []
    else seq<byte>(size - |log[i]|, k requires 0 <= k < size - |log[i]| => LastByte(log, i, |log[i]| + k))
  }

  /** Every earlier record at this place was as short, or ended in zeros there. */
  ghost predicate CleanTail(log: seq<Record>, i: nat, size: nat)
    requires Loggable(log) && i < |log| && size <= PAYLOAD
  {
    forall b :: |log[i]| <= b < size ==> LastByte(log, i, b) == 0
  }

  lemma {:induction false} FirstLap(log: seq<Record>, k: nat)
    requires Loggable(log) && |log| <= k
    ensures RowAfter(log, k) == Zeros(PAYLOAD)
  {
    if |log| > 0 { FirstLap(log[..|log| - 1], k); }
  }

  /** What record i overwrote. */
  lemma RowBefore(log: seq<Record>, i: nat)
    requires Loggable(log) && i < |log|
    ensures Written(log, i) == Over(log[i], RowAfter(log[..i], i % RING))
    ensures RowAfter(log[..i], i % RING) == if i < RING then Zeros(PAYLOAD) else Written(log, i - RING)
  {
    var upTo := log[..i + 1];
    assert upTo[..i] == log[..i] && upTo[i] == log[i];
    if i < RING {
      FirstLap(log[..i], i);
    } else {
      RowStays(log[..i], i - RING);
      assert log[..i][..i - RING + 1] == log[..i - RING + 1];
    }
  }

  /** The ring holds what the history says. */
  lemma {:induction false} WrittenByte(log: seq<Record>, i: nat, b: nat)
    requires Loggable(log) && i < |log| && b < PAYLOAD
    ensures Written(log, i)[b] == LastByte(log, i, b)
  {
    RowBefore(log, i);
    if b >= |log[i]| && i >= RING { WrittenByte(log, i - RING, b); }
  }

  /** A record is exact in its own bytes; behind them lies what earlier records left. */
  lemma WrittenIs(log: seq<Record>, i: nat, size: nat)
    requires Loggable(log) && i < |log| && size <= PAYLOAD
    ensures Written(log, i)[..size] == log[i][..Min(|log[i]|, size)] + Tail(log, i, size)
  {
    var m := Min(|log[i]|, size);
    forall b | 0 <= b < size
      ensures Written(log, i)[b] == if b < m then log[i][b] else Tail(log, i, size)[b - m]
    {
      WrittenByte(log, i, b);
    }
  }

  /** A flush agrees with the unbounded log iff, behind every short record shown, the history last
      left zeros. */
  lemma ShownIffCleanTails(log: seq<Record>, n: nat, size: nat)
    requires Loggable(log) && n <= |log| && size <= PAYLOAD
    ensures Flatten(Shown(log, n, size)) == Flatten(Expected(log, n, size)) <==>
            forall i :: |log| - n <= i < |log| ==> CleanTail(log, i, size)
  {
    var shown, want := Shown(log, n, size), Expected(log, n, size);
    forall i | 0 <= i < n ensures |shown[i]| == |want[i]| {
      assert shown[i] == Written(log, |log| - n + i)[..size];
      assert want[i] == (log[|log| - n + i] + Zeros(PAYLOAD))[..size];
    }
    FlattenInjective(shown, want);
    forall i | 0 <= i < n ensures shown[i] == want[i] <==> CleanTail(log, |log| - n + i, size) {
      OneShown(log, |log| - n + i, size);
    }
    if shown == want {
      forall i | |log| - n <= i < |log| ensures CleanTail(log, i, size) {
        assert shown[i - (|log| - n)] == want[i - (|log| - n)];
      }
    }
  }

  /** Records that fill the size asked for come back exactly, whatever the ring held before. */
  lemma FullRecordsExact(log: seq<Record>, n: nat, size: nat)
    requires Loggable(log) && n <= |log| && size <= PAYLOAD
    requires forall i :: |log| - n <= i < |log| ==> |log[i]| >= size
    ensures Flatten(Shown(log, n, size)) == Flatten(Expected(log, n, size))
  {
    assert forall i :: |log| - n <= i < |log| ==> |log[i]| >= size ==> CleanTail(log, i, size);
    ShownIffCleanTails(log, n, size);
  }

  lemma OneShown(log: seq<Record>, i: nat, size: nat)
    requires Loggable(log) && i < |log| && size <= PAYLOAD
    ensures Written(log, i)[..size] == (log[i] + Zeros(PAYLOAD))[..size] <==> CleanTail(log, i, size)
  {
    var shown, want := Written(log, i)[..size], (log[i] + Zeros(PAYLOAD))[..size];
    forall b | 0 <= b < size ensures shown[b] == LastByte(log, i, b) { WrittenByte(log, i, b); }
    assert forall b :: 0 <= b < size ==> want[b] == if b < |log[i]| then log[i][b] else 0;
    if shown == want {
      forall b | |log[i]| <= b < size ensures LastByte(log, i, b) == 0 { assert shown[b] == want[b]; }
    }
  }

  /** A short record in a second lap shows bytes of the record it overwrote. */
  lemma ShortRecordShowsOldBytes(first: Record, laps: seq<Record>, short: Record)
    requires |first| == PAYLOAD && |laps| == RING - 1 && Loggable(laps) && Fits(short)
    ensures Loggable([first] + laps + [short])
    ensures Flatten(Shown([first] + laps + [short], 1, PAYLOAD)) == short + first[|short|..]
  {
    var log := [first] + laps + [short];
    assert log[RING] == short && log[0] == first;
    WrittenIs(log, RING, PAYLOAD);
    forall b | |short| <= b < PAYLOAD ensures LastByte(log, RING, b) == first[b] {
      assert LastByte(log, 0, b) == first[b];
    }
    assert Tail(log, RING, PAYLOAD) == first[|short|..];
    var shown := Shown(log, 1, PAYLOAD);
    assert shown[1..] == [] && Flatten(shown) == shown[0] + Flatten<byte>([]);
  }

  /** The driver's single ring: all writers and readers hold its lock. */
  class Ring {
    const slots: array<Row>
    var head: nat        // next row to write
    var total: nat       // records ever written
    ghost var log: seq<Record>

    ghost predicate Valid()
      reads this, slots
    {
      && slots.Length == RING
      && Loggable(log) && total == |log| && head == total % RING
      && forall k :: 0 <= k < RING ==> slots[k] == RowAfter(log, k)
    }

    constructor ()
      ensures Valid() && fresh(slots) && log == []
    {
      slots := new Row[RING](_ => seq(PAYLOAD, _ => 0));
      head, total, log := 0, 0, [];
    }

    /** shTelemetrySink */
    method Sink(record: Record)
      requires Valid()
      modifies this, slots
      ensures Valid()
      ensures log == old(log) + (if Fits(record) then [record] else [])
      ensures log != old(log) <==> 0 < |record| <= 80
    {
      if |record| == 0 || |record| > PAYLOAD { return; }
      Appended(log, record);
      NextHead(total);
      slots[head] := Over(record, slots[head]);
      head := (head + 1) % RING;
      total := total + 1;
      log := log + [record];
    }

    /** SkTelemetryFlush into a kernel buffer of max * size bytes; the number of records copied. */
    method Flush(max: u32, size: u32) returns (n: nat, out: seq<byte>)
      requires Valid()
      ensures size == 0 || size > PAYLOAD ==> n == 0 && out == []
      ensures 0 < size <= PAYLOAD ==>
                n == Min(Min(|log|, RING), max) && out == Flatten(Shown(log, n, size))
      ensures 0 < size <= 80 ==> n <= max && n <= 1024 && n <= |log| && (n == max || n == 1024 || n == |log|)
    {
      n, out := 0, [];
      if size > PAYLOAD || size == 0 { return; }
      var avail := if total < RING then total else RING;
      n := if avail < max then avail else max;
      out := CopyRows(n, size);
    }

    /** The copy loop of the flush: n rows from `start`, around the end of the ring. */
    method CopyRows(n: nat, size: nat) returns (out: seq<byte>)
      requires Valid() && n <= |log| && n <= RING && size <= PAYLOAD
      ensures out == Flatten(Shown(log, n, size))
    {
      out := [];
      var start := StartRow(head, n);
      var i := 0;
      while i < n
        invariant 0 <= i <= n
        invariant out == Flatten(Shown(log, n, size)[..i])
      {
        NextShown(log, n, i, size);
        out := out + slots[RowFrom(start, i)][..size];
        i := i + 1;
      }
      assert Shown(log, n, size)[..n] == Shown(log, n, size);
    }
  }

  function StartRow(head: nat, n: nat): (row: nat)
    requires head < RING && n <= RING
    ensures row < RING
  {
    (head + RING - n) % RING
  }

  function RowFrom(start: nat, i: nat): (row: nat)
    ensures row < RING
  {
    (start + i) % RING
  }

  lemma NextHead(total: nat)
    ensures (total % RING + 1) % RING == (total + 1) % RING
  {
  }

  lemma RowIndex(total: nat, n: nat, i: nat)
    requires i < n <= total && n <= RING
    ensures RowFrom(StartRow(total % RING, n), i) == (total - n + i) % RING
  {
  }

  lemma NextRow(log: seq<Record>, n: nat, i: nat)
    requires Loggable(log) && i < n <= |log| && n <= RING
    ensures RowAfter(log, RowFrom(StartRow(|log| % RING, n), i)) == Written(log, |log| - n + i)
  {
    RowIndex(|log|, n, i);
    RowStays(log, |log| - n + i);
  }

  lemma ShownAt(log: seq<Record>, n: nat, i: nat, size: nat)
    requires Loggable(log) && i < n <= |log| && size <= PAYLOAD
    ensures |Shown(log, n, size)| == n && Shown(log, n, size)[i] == Written(log, |log| - n + i)[..size]
  {
  }

  /** The row the flush loop reads next holds the next record to show. */
  lemma NextShown(log: seq<Record>, n: nat, i: nat, size: nat)
    requires Loggable(log) && i < n <= |log| && n <= RING && size <= PAYLOAD
    ensures Flatten(Shown(log, n, size)[..i + 1]) ==
            Flatten(Shown(log, n, size)[..i]) + RowAfter(log, RowFrom(StartRow(|log| % RING, n), i))[..size]
  {
    ShownAt(log, n, i, size);
    NextRow(log, n, i);
    FlattenTake(Shown(log, n, size), i);
  }

  lemma FlattenTake(rows: seq<seq<byte>>, i: nat)
    requires i < |rows|
    ensures Flatten(rows[..i + 1]) == Flatten(rows[..i]) + rows[i]
  {
    assert rows[..i + 1] == rows[..i] + [rows[i]];
    FlattenSnoc(rows[..i], rows[i]);
  }
}

/** Buffered process output, cut into log records: taskexecutor/output.go. */
module Output {
  import opened Triggers

  const SEVERITY_INFO: int := 20
  const SEVERITY_ERROR: int := 40
  const RECORD_WINDOW_US: int := 20_000

  datatype RecordType = NoRecord | StdoutRecord | StderrRecord
  datatype LogRecord = LogRecord(severity: int, time: int, body: Bytes)

  /** The buffer's state. `taken` is what Flush has removed from `records` since the start. */
  datatype Buffer = Buffer(hasCallback: bool, stdout: Bytes, stderr: Bytes, records: seq<LogRecord>,
                           current: RecordType, deadlineUs: int, taken: seq<LogRecord>)

  const EMPTY: Buffer := Buffer(true, [], [], [], NoRecord, 0, [])

  function Severity(t: RecordType): int {
    if t == StderrRecord then SEVERITY_ERROR else SEVERITY_INFO
  }

  function Pending(b: Buffer): Bytes {
    if b.current == NoRecord then [] else if b.current == StderrRecord then b.stderr else b.stdout
  }

  function AfterFlush(b: Buffer): Buffer {
    if b.records == [] then b else b.(records := [], taken := b.taken + b.records)
  }

  function AfterFlushRecord(b: Buffer, stamp: int): Buffer {
    if b.current == NoRecord then b
    else
      var c := b.(records := b.records + [LogRecord(Severity(b.current), stamp, Pending(b))], current := NoRecord);
      if b.current == StderrRecord then c.(stderr := []) else c.(stdout := [])
  }

  /** The record kept open for the new bytes, or closed before them. */
  function Prepare(b: Buffer, kind: RecordType, nowUs: int, stamp: int): Buffer {
    if b.current == NoRecord then b.(deadlineUs := nowUs + RECORD_WINDOW_US)
    else if b.current != kind || nowUs > b.deadlineUs then AfterFlushRecord(b, stamp)
    else b
  }

  function AppendTo(b: Buffer, kind: RecordType, data: Bytes): Buffer {
    if kind == StderrRecord then b.(current := kind, stderr := b.stderr + data)
    else b.(current := kind, stdout := b.stdout + data)
  }

  function Kind(isStderr: bool): RecordType {
    if isStderr then StderrRecord else StdoutRecord
  }

  function AfterWrite(b: Buffer, data: Bytes, isStderr: bool, nowUs: int, stamp: int): Buffer {
    if data == [] then b else AppendTo(Prepare(b, Kind(isStderr), nowUs, stamp), Kind(isStderr), data)
  }

  /** What the flush loop does on the close signal. */
  function AfterStop(b: Buffer, stamp: int): Buffer {
    AfterFlush(AfterFlushRecord(b, stamp))
  }

  // ---- The object ----

  class OutputBuffer {
    const hasCallback: bool
    var stdout: Bytes
    var stderr: Bytes
    var records: seq<LogRecord>
    var currentRecordType: RecordType
    var recordDeadlineUs: int
    ghost var taken: seq<LogRecord>
    var delivered: seq<LogRecord>  // what the flush callback has been given

    ghost function Value(): Buffer
      reads this
    {
      Buffer(hasCallback, stdout, stderr, records, currentRecordType, recordDeadlineUs, taken)
    }

    ghost predicate Valid()
      reads this
    {
      && WellFormed(Value())
      && delivered == if hasCallback then taken else []
    }

    constructor (hasCallback: bool)
      ensures Valid() && Value() == EMPTY.(hasCallback := hasCallback)
    {
      this.hasCallback := hasCallback;
      stdout, stderr, records, currentRecordType, recordDeadlineUs := [], [], [], NoRecord, 0;
      taken, delivered := [], [];
    }

    method Flush()
      requires Valid()
      modifies this
      ensures Valid() && Value() == AfterFlush(old(Value()))
    {
      if |records| == 0 {
        return;
      }
      if hasCallback {
        delivered := delivered + records;
      }
      taken := taken + records;
      records := [];
    }

    /** `stamp` is the clock at the moment the record is made. */
    method FlushRecord(stamp: int)
      requires Valid()
      modifies this
      ensures Valid() && Value() == AfterFlushRecord(old(Value()), stamp)
    {
      if currentRecordType == NoRecord {
        return;
      }
      var severity, body := SEVERITY_INFO, stdout;
      if currentRecordType == StderrRecord {
        severity, body := SEVERITY_ERROR, stderr;
        stderr := [];
      } else {
        stdout := [];
      }
      records := records + [LogRecord(severity, stamp, body)];
      currentRecordType := NoRecord;
    }

    /** `nowUs` is the clock when the deadline is set or compared. */
    method Write(data: Bytes, isStderr: bool, nowUs: int, stamp: int) returns (length: nat)
      requires Valid()
      modifies this
      ensures Valid() && Value() == AfterWrite(old(Value()), data, isStderr, nowUs, stamp)
      ensures length == |data|
    {
      if |data| == 0 {
        return 0;
      }
      var kind := if isStderr then StderrRecord else StdoutRecord;
      if currentRecordType == NoRecord {
        recordDeadlineUs := nowUs + RECORD_WINDOW_US;
      } else if currentRecordType != kind || nowUs > recordDeadlineUs {
        FlushRecord(stamp);
      }
      currentRecordType := kind;
      if isStderr {
        stderr := stderr + data;
      } else {
        stdout := stdout + data;
      }
      return |data|;
    }

    /** The close branch of the flush loop, for which Stop waits. */
    method Stop(stamp: int)
      requires Valid()
      modifies this
      ensures Valid() && Value() == AfterStop(old(Value()), stamp)
      ensures stdout == stderr == [] && records == [] && currentRecordType == NoRecord
      ensures hasCallback ==> Flat(delivered) == old(Trace(Value()))
    {
      StopDrains(Value(), stamp);
      FlushRecord(stamp);
      Flush();
    }
  }

  // ---- Traces ----

  datatype Tagged = Tagged(severity: int, value: byte)

  function Tag(severity: int, body: Bytes): seq<Tagged> {
    seq(|body|, i requires 0 <= i < |body| => Tagged(severity, body[i]))
  }

  function Flat(records: seq<LogRecord>): seq<Tagged> {
    if |records| == 0 then [] else Tag(records[0].severity, records[0].body) + Flat(records[1..])
  }

  /** Everything taken by Flush, then the records, then the pending bytes. */
  function Trace(b: Buffer): seq<Tagged> {
    Flat(b.taken) + Flat(b.records) + Tag(Severity(b.current), Pending(b))
  }

  /** The same, with what actually reached a callback in place of what was taken. */
  function Reached(b: Buffer): seq<Tagged> {
    Flat(if b.hasCallback then b.taken else []) + Flat(b.records) + Tag(Severity(b.current), Pending(b))
  }

  predicate GoodRecords(records: seq<LogRecord>) {
    forall r | r in records :: r.body != [] && r.severity in {SEVERITY_INFO, SEVERITY_ERROR}
  }

  /** At most one buffer holds bytes, it is the one the current record type names, and no record is empty. */
  predicate WellFormed(b: Buffer) {
    && (b.stdout != [] <==> b.current == StdoutRecord)
    && (b.stderr != [] <==> b.current == StderrRecord)
    && GoodRecords(b.records)
    && GoodRecords(b.taken)
  }

  lemma {:induction false} FlatAppend(a: seq<LogRecord>, b: seq<LogRecord>)
    ensures Flat(a + b) == Flat(a) + Flat(b)
  {
    if a == [] {
      assert a + b == b;
    } else {
      assert (a + b)[1..] == a[1..] + b;
      FlatAppend(a[1..], b);
    }
  }

  lemma FlatOne(r: LogRecord)
    ensures Flat([r]) == Tag(r.severity, r.body)
  {
  }

  lemma FlushKeepsTrace(b: Buffer)
    requires WellFormed(b)
    ensures WellFormed(AfterFlush(b)) && Trace(AfterFlush(b)) == Trace(b)
  {
    FlatAppend(b.taken, b.records);
  }

  lemma FlushRecordKeepsTrace(b: Buffer, stamp: int)
    requires WellFormed(b)
    ensures WellFormed(AfterFlushRecord(b, stamp)) && Trace(AfterFlushRecord(b, stamp)) == Trace(b)
  {
    if b.current != NoRecord {
      var r := LogRecord(Severity(b.current), stamp, Pending(b));
      FlatAppend(b.records, [r]);
      FlatOne(r);
    }
  }

  lemma TagAppend(severity: int, a: Bytes, b: Bytes)
    ensures Tag(severity, a + b) == Tag(severity, a) + Tag(severity, b)
  {
  }

  lemma AppendExtendsTrace(b: Buffer, kind: RecordType, data: Bytes)
    requires WellFormed(b) && kind != NoRecord && data != [] && (b.current == kind || b.current == NoRecord)
    ensures WellFormed(AppendTo(b, kind, data))
    ensures Trace(AppendTo(b, kind, data)) == Trace(b) + Tag(Severity(kind), data)
  {
    TagAppend(Severity(kind), Pending(b), data);
    assert Pending(AppendTo(b, kind, data)) == Pending(b) + data;
  }

  lemma WriteExtendsTrace(b: Buffer, data: Bytes, isStderr: bool, nowUs: int, stamp: int)
    requires WellFormed(b)
    ensures WellFormed(AfterWrite(b, data, isStderr, nowUs, stamp))
    ensures Trace(AfterWrite(b, data, isStderr, nowUs, stamp)) == Trace(b) + Tag(Severity(Kind(isStderr)), data)
  {
    if data != [] {
      FlushRecordKeepsTrace(b, stamp);
      AppendExtendsTrace(Prepare(b, Kind(isStderr), nowUs, stamp), Kind(isStderr), data);
    }
  }

  lemma StopDrains(b: Buffer, stamp: int)
    requires WellFormed(b)
    ensures var c := AfterStop(b, stamp);
            && WellFormed(c)
            && c.stdout == c.stderr == [] && c.records == [] && c.current == NoRecord
            && Flat(c.taken) == Trace(b) == Trace(c)
  {
    FlushRecordKeepsTrace(b, stamp);
    FlushKeepsTrace(AfterFlushRecord(b, stamp));
  }

  // ---- Runs ----

  /** Writes come from the two pipes, Flush and Stop from the flush loop; clock readings are arbitrary. */
  datatype Op =
    | Write(data: Bytes, isStderr: bool, nowUs: int, stamp: int)
    | FlushRecord(stamp: int)
    | Flush
    | Stop(stamp: int)

  function Apply(b: Buffer, op: Op): Buffer {
    match op
    case Write(data, isStderr, nowUs, stamp) => AfterWrite(b, data, isStderr, nowUs, stamp)
    case FlushRecord(stamp) => AfterFlushRecord(b, stamp)
    case Flush => AfterFlush(b)
    case Stop(stamp) => AfterStop(b, stamp)
  }

  function Run(b: Buffer, ops: seq<Op>): Buffer
    decreases |ops|
  {
    if |ops| == 0 then b else Run(Apply(b, ops[0]), ops[1..])
  }

  /** The bytes the process wrote, each with its stream, in the order of the writes. */
  function Written(ops: seq<Op>): seq<Tagged> {
    if |ops| == 0 then [] else WrittenBy(ops[0]) + Written(ops[1..])
  }

  function WrittenBy(op: Op): seq<Tagged> {
    if op.Write? then Tag(Severity(Kind(op.isStderr)), op.data) else []
  }

  lemma {:induction false} RunTrace(b: Buffer, ops: seq<Op>)
    requires WellFormed(b)
    ensures WellFormed(Run(b, ops))
    ensures Trace(Run(b, ops)) == Trace(b) + Written(ops)
    decreases |ops|
  {
    if ops == [] {
      assert Trace(b) + [] == Trace(b);
    } else {
      StepTrace(b, ops[0]);
      RunTrace(Apply(b, ops[0]), ops[1..]);
      Reassociate(Trace(b), WrittenBy(ops[0]), Written(ops[1..]));
    }
  }

  lemma Reassociate<T>(a: seq<T>, b: seq<T>, c: seq<T>)
    ensures (a + b) + c == a + (b + c)
  {
  }

  lemma StepTrace(b: Buffer, op: Op)
    requires WellFormed(b)
    ensures WellFormed(Apply(b, op))
    ensures Trace(Apply(b, op)) == Trace(b) + WrittenBy(op)
  {
    match op
    case Write(data, isStderr, nowUs, stamp) => WriteExtendsTrace(b, data, isStderr, nowUs, stamp);
    case FlushRecord(stamp) => FlushRecordKeepsTrace(b, stamp);
    case Flush => FlushKeepsTrace(b);
    case Stop(stamp) => StopDrains(b, stamp);
  }

  /** Without a callback, what was taken is missing from what is reached. */
  lemma ReachedWithoutCallback(b: Buffer)
    requires GoodRecords(b.taken) && !b.hasCallback
    ensures Reached(b) == Trace(b) <==> b.taken == []
  {
  }

  /** The call finds a record to flush. */
  predicate Flushes(b: Buffer, op: Op) {
    || (op.Flush? && b.records != [])
    || (op.Stop? && (b.records != [] || b.current != NoRecord))
  }

  predicate FlushesSomewhere(b: Buffer, ops: seq<Op>)
    decreases |ops|
  {
    ops != [] && (Flushes(b, ops[0]) || FlushesSomewhere(Apply(b, ops[0]), ops[1..]))
  }

  lemma {:induction false} TakenByFlushes(b: Buffer, ops: seq<Op>)
    ensures Run(b, ops).taken == [] <==> b.taken == [] && !FlushesSomewhere(b, ops)
    decreases |ops|
  {
    if ops != [] {
      assert Apply(b, ops[0]).taken == [] <==> b.taken == [] && !Flushes(b, ops[0]);
      TakenByFlushes(Apply(b, ops[0]), ops[1..]);
    }
  }

  /**
   Conservation: after any run, what reached the callback, the records and the pending bytes spell out
   exactly what was written, in order, if and only if there is a callback or no call found a record to flush.
   */
  lemma Conservation(hasCallback: bool, ops: seq<Op>)
    ensures var e := EMPTY.(hasCallback := hasCallback);
            Reached(Run(e, ops)) == Written(ops) <==> hasCallback || !FlushesSomewhere(e, ops)
  {
    var e := EMPTY.(hasCallback := hasCallback);
    RunTrace(e, ops);
    RunKeepsCallback(e, ops);
    TakenByFlushes(e, ops);
    assert Trace(e) + Written(ops) == Written(ops);
    if !hasCallback {
      ReachedWithoutCallback(Run(e, ops));
    }
  }

  lemma {:induction false} RunKeepsCallback(b: Buffer, ops: seq<Op>)
    ensures Run(b, ops).hasCallback == b.hasCallback
    decreases |ops|
  {
    if ops != [] {
      RunKeepsCallback(Apply(b, ops[0]), ops[1..]);
    }
  }

  // ---- The record deadline ----

  /**
   While no call but Write closes a record, the deadline set at the first write is never set again: the window does
   not move to later records.
   */
  lemma {:induction false} DeadlineIsFixed(b: Buffer, ops: seq<Op>)
    requires b.current != NoRecord && forall op | op in ops :: op.Write? || op.Flush?
    ensures Run(b, ops).current != NoRecord && Run(b, ops).deadlineUs == b.deadlineUs
    decreases |ops|
  {
    if ops != [] {
      DeadlineIsFixed(Apply(b, ops[0]), ops[1..]);
    }
  }

  /** The open record as it would be closed, without its time. */
  function Shapes(records: seq<LogRecord>): seq<(int, Bytes)> {
    seq(|records|, i requires 0 <= i < |records| => (records[i].severity, records[i].body))
  }

  function AllShapes(b: Buffer): seq<(int, Bytes)> {
    Shapes(b.taken) + Shapes(b.records) + if b.current == NoRecord then [] else [(Severity(b.current), Pending(b))]
  }

  function WriteShapes(ops: seq<Op>): seq<(int, Bytes)> {
    if |ops| == 0 then [] else WriteShape(ops[0]) + WriteShapes(ops[1..])
  }

  function WriteShape(op: Op): seq<(int, Bytes)> {
    if op.Write? && op.data != [] then [(Severity(Kind(op.isStderr)), op.data)] else []
  }

  lemma FlushKeepsShapes(b: Buffer, stamp: int)
    ensures AllShapes(AfterFlush(b)) == AllShapes(b)
    ensures AllShapes(AfterFlushRecord(b, stamp)) == AllShapes(b)
  {
  }

  lemma OpenRecordShape(b: Buffer, kind: RecordType, data: Bytes)
    requires WellFormed(b) && kind != NoRecord && b.current == NoRecord
    ensures AllShapes(AppendTo(b, kind, data)) == AllShapes(b) + [(Severity(kind), data)]
  {
    assert [] + data == data;
  }

  /** Hence every write after the deadline becomes a record of its own, however close the writes are. */
  lemma {:induction false} LateWritesAreRecords(b: Buffer, ops: seq<Op>)
    requires WellFormed(b) && b.current != NoRecord
    requires forall op | op in ops :: op.Flush? || (op.Write? && op.nowUs > b.deadlineUs)
    ensures AllShapes(Run(b, ops)) == AllShapes(b) + WriteShapes(ops)
    decreases |ops|
  {
    if ops == [] {
      assert AllShapes(b) + [] == AllShapes(b);
    } else {
      StepTrace(b, ops[0]);
      LateWriteIsRecord(b, ops[0]);
      DeadlineIsFixed(b, [ops[0]]);
      LateWritesAreRecords(Apply(b, ops[0]), ops[1..]);
      Reassociate(AllShapes(b), WriteShape(ops[0]), WriteShapes(ops[1..]));
    }
  }

  lemma LateWriteIsRecord(b: Buffer, op: Op)
    requires WellFormed(b) && b.current != NoRecord
    requires op.Flush? || (op.Write? && op.nowUs > b.deadlineUs)
    ensures AllShapes(Apply(b, op)) == AllShapes(b) + WriteShape(op)
  {
    if op.Write? && op.data != [] {
      FlushKeepsShapes(b, op.stamp);
      FlushRecordKeepsTrace(b, op.stamp);
      OpenRecordShape(AfterFlushRecord(b, op.stamp), Kind(op.isStderr), op.data);
    } else {
      FlushKeepsShapes(b, 0);
      assert AllShapes(b) + [] == AllShapes(b);
    }
  }

  /** An input: three writes to one stream, the last two a microsecond apart, end up in three records. */
  lemma CloseWritesAreSplit(x: Bytes, y: Bytes, z: Bytes)
    requires x != [] && y != [] && z != []
    ensures var first := AfterWrite(EMPTY, x, false, 0, 0);
            var second := AfterWrite(first, y, false, 30_000, 30_000);
            var third := AfterWrite(second, z, false, 30_001, 30_001);
            third.records == [LogRecord(SEVERITY_INFO, 30_000, x), LogRecord(SEVERITY_INFO, 30_001, y)]
              && third.stdout == z
  {
    assert [] + x == x && [] + y == y && [] + z == z;
    var first := AfterWrite(EMPTY, x, false, 0, 0);
    assert first == EMPTY.(stdout := x, current := StdoutRecord, deadlineUs := RECORD_WINDOW_US);
    var second := AfterWrite(first, y, false, 30_000, 30_000);
    assert second == first.(stdout := y, records := [LogRecord(SEVERITY_INFO, 30_000, x)]);
    assert [LogRecord(SEVERITY_INFO, 30_000, x)] + [LogRecord(SEVERITY_INFO, 30_001, y)]
           == [LogRecord(SEVERITY_INFO, 30_000, x), LogRecord(SEVERITY_INFO, 30_001, y)];
  }

  /**
   The window is 20 ms from the write that opens a record: a second write to the same stream joins it up to then, and
   later closes it, with the stream's severity, the clock's reading and exactly the first write's bytes.
   */
  lemma WindowOfRecord(x: Bytes, y: Bytes, isStderr: bool, t: int, nowUs: int, stamp: int)
    requires x != [] && y != []
    ensures var first := AfterWrite(EMPTY, x, isStderr, t, t);
            var second := AfterWrite(first, y, isStderr, nowUs, stamp);
            && second.records == (if nowUs - t <= 20_000 then []
                                  else [LogRecord(if isStderr then 40 else 20, stamp, x)])
            && (if isStderr then second.stderr else second.stdout) == (if nowUs - t <= 20_000 then x + y else y)
  {
    assert [] + x == x && [] + y == y;
  }

  // ---- Records are maximal runs of one stream ----

  predicate Alternating(shapes: seq<(int, Bytes)>) {
    && (forall i | 0 <= i < |shapes| :: shapes[i].1 != [])
    && (forall i | 0 <= i < |shapes| - 1 :: shapes[i].0 != shapes[i + 1].0)
  }

  /** The write opens a record for the stream the last record was of: the deadline passed, or a call closed it. */
  predicate Splits(b: Buffer, op: Op) {
    && op.Write? && op.data != []
    && (b.current == NoRecord || op.nowUs > b.deadlineUs)
    && var shapes := AllShapes(b);
       shapes != [] && shapes[|shapes| - 1].0 == Severity(Kind(op.isStderr))
  }

  predicate SplitsSomewhere(b: Buffer, ops: seq<Op>)
    decreases |ops|
  {
    ops != [] && (Splits(b, ops[0]) || SplitsSomewhere(Apply(b, ops[0]), ops[1..]))
  }

  /** A run keeps the records alternating between the streams exactly if none of its writes splits a stream. */
  lemma {:induction false} RecordsAlternate(b: Buffer, ops: seq<Op>)
    requires WellFormed(b)
    ensures Alternating(AllShapes(Run(b, ops))) <==> Alternating(AllShapes(b)) && !SplitsSomewhere(b, ops)
    decreases |ops|
  {
    if ops != [] {
      StepTrace(b, ops[0]);
      StepAlternates(b, ops[0]);
      RecordsAlternate(Apply(b, ops[0]), ops[1..]);
    }
  }

  lemma StepAlternates(b: Buffer, op: Op)
    requires WellFormed(b)
    ensures Alternating(AllShapes(Apply(b, op))) <==> Alternating(AllShapes(b)) && !Splits(b, op)
  {
    if op.Write? && op.data != [] {
      if b.current == Kind(op.isStderr) && op.nowUs <= b.deadlineUs {
        ExtendLast(Shapes(b.taken) + Shapes(b.records), Severity(b.current), Pending(b), op.data);
      } else {
        OpenAlternates(b, op);
      }
    } else {
      var stamp := if op.Stop? || op.FlushRecord? then op.stamp else 0;
      FlushKeepsShapes(b, stamp);
      FlushKeepsShapes(AfterFlushRecord(b, stamp), 0);
    }
  }

  lemma OpenShapes(b: Buffer, op: Op)
    requires WellFormed(b) && op.Write? && op.data != []
    requires b.current != Kind(op.isStderr) || op.nowUs > b.deadlineUs
    ensures AllShapes(Apply(b, op)) == AllShapes(b) + [(Severity(Kind(op.isStderr)), op.data)]
  {
    FlushKeepsShapes(b, op.stamp);
    FlushRecordKeepsTrace(b, op.stamp);
    OpenRecordShape(Prepare(b, Kind(op.isStderr), op.nowUs, op.stamp), Kind(op.isStderr), op.data);
  }

  lemma OpenAlternates(b: Buffer, op: Op)
    requires WellFormed(b) && op.Write? && op.data != []
    requires b.current != Kind(op.isStderr) || op.nowUs > b.deadlineUs
    ensures Alternating(AllShapes(Apply(b, op))) <==> Alternating(AllShapes(b)) && !Splits(b, op)
  {
    var shapes := AllShapes(b);
    OpenShapes(b, op);
    AppendShape(shapes, Severity(Kind(op.isStderr)), op.data);
    assert b.current != NoRecord ==> shapes[|shapes| - 1].0 == Severity(b.current);
  }

  lemma ExtendLast(shapes: seq<(int, Bytes)>, severity: int, body: Bytes, data: Bytes)
    requires body != []
    ensures Alternating(shapes + [(severity, body + data)]) <==> Alternating(shapes + [(severity, body)])
  {
    AppendShape(shapes, severity, body);
    AppendShape(shapes, severity, body + data);
  }

  lemma AppendShape(shapes: seq<(int, Bytes)>, severity: int, body: Bytes)
    requires body != []
    ensures Alternating(shapes + [(severity, body)])
            <==> Alternating(shapes) && (shapes != [] ==> shapes[|shapes| - 1].0 != severity)
  {
    var after := shapes + [(severity, body)];
    assert forall i | 0 <= i < |shapes| :: after[i] == shapes[i];
    assert shapes != [] ==> after[|shapes| - 1] == shapes[|shapes| - 1] && after[|shapes| - 1 + 1].0 == severity;
    if Alternating(after) {
      forall i | 0 <= i < |shapes| - 1
        ensures shapes[i].0 != shapes[i + 1].0
      {
        assert after[i].0 != after[i + 1].0;
      }
    }
  }

  function Spell(shapes: seq<(int, Bytes)>): seq<Tagged> {
    if |shapes| == 0 then [] else Tag(shapes[0].0, shapes[0].1) + Spell(shapes[1..])
  }

  /** The trace goes on with the first record's stream for its length, then changes stream or ends. */
  lemma FirstRun(x: seq<(int, Bytes)>)
    requires Alternating(x) && x != []
    ensures var n := |x[0].1|;
            && n <= |Spell(x)|
            && Spell(x)[..n] == Tag(x[0].0, x[0].1)
            && Spell(x)[n..] == Spell(x[1..])
            && (forall i | 0 <= i < n :: Spell(x)[i].severity == x[0].0)
            && (n < |Spell(x)| ==> Spell(x)[n].severity != x[0].0)
  {
  }

  lemma TagInjective(s: int, a: Bytes, t: int, b: Bytes)
    requires Tag(s, a) == Tag(t, b) && a != []
    ensures s == t && a == b
  {
    assert |a| == |Tag(s, a)| == |Tag(t, b)| == |b|;
    assert Tag(s, a)[0] == Tag(t, b)[0];
    assert forall i | 0 <= i < |a| :: Tag(s, a)[i] == Tagged(s, a[i]) && Tag(t, b)[i] == Tagged(t, b[i]);
  }

  /** There is only one way to cut a trace into alternating records. */
  lemma {:induction false} AlternatingIsUnique(x: seq<(int, Bytes)>, y: seq<(int, Bytes)>)
    requires Alternating(x) && Alternating(y) && Spell(x) == Spell(y)
    ensures x == y
  {
    if x != [] && y != [] {
      FirstRun(x);
      FirstRun(y);
      var m, n := |x[0].1|, |y[0].1|;
      assert x[0].0 == Spell(x)[0].severity == y[0].0;
      assert m == n;
      TagInjective(x[0].0, x[0].1, y[0].0, y[0].1);
      AlternatingIsUnique(x[1..], y[1..]);
      assert x == [x[0]] + x[1..] && y == [y[0]] + y[1..];
    }
  }

  lemma {:induction false} SpellAppend(x: seq<(int, Bytes)>, y: seq<(int, Bytes)>)
    ensures Spell(x + y) == Spell(x) + Spell(y)
  {
    if x == [] {
      assert x + y == y;
    } else {
      assert (x + y)[1..] == x[1..] + y;
      SpellAppend(x[1..], y);
    }
  }

  lemma {:induction false} SpellShapes(records: seq<LogRecord>)
    ensures Spell(Shapes(records)) == Flat(records)
  {
    if records != [] {
      SpellShapes(records[1..]);
      assert Shapes(records)[1..] == Shapes(records[1..]);
    }
  }

  lemma ShapesSpellTrace(b: Buffer)
    ensures Spell(AllShapes(b)) == Trace(b)
  {
    SpellShapes(b.taken);
    SpellShapes(b.records);
    SpellAppend(Shapes(b.taken), Shapes(b.records));
    var open := if b.current == NoRecord then [] else [(Severity(b.current), Pending(b))];
    SpellAppend(Shapes(b.taken) + Shapes(b.records), open);
    assert open != [] ==> open[1..] == [];
    assert Spell(open) == Tag(Severity(b.current), Pending(b));
  }

  /**
   If no write splits a stream, the records are the maximal one-stream runs of what was written: any such cut is this
   one.
   */
  lemma RecordsAreMaximalRuns(hasCallback: bool, ops: seq<Op>, cut: seq<(int, Bytes)>)
    requires !SplitsSomewhere(EMPTY.(hasCallback := hasCallback), ops)
    requires Alternating(cut) && Spell(cut) == Written(ops)
    ensures AllShapes(Run(EMPTY.(hasCallback := hasCallback), ops)) == cut
  {
    var e := EMPTY.(hasCallback := hasCallback);
    assert AllShapes(e) == [] && Trace(e) == [];
    RunTrace(e, ops);
    RecordsAlternate(e, ops);
    ShapesSpellTrace(Run(e, ops));
    AlternatingIsUnique(AllShapes(Run(e, ops)), cut);
  }
}

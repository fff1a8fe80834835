/**
 The batching engine of lib/cacheManage.go. `flushLogs` becomes the trace of
 calls it makes against an abstract sink whose answers come from an oracle;
 the `CacheFlush` loop becomes a step function over two events (a record
 arrives, the timer ticks) and a run of that step over a sequence of events.
 */
module CacheManage {
  import opened Wrappers
  import opened LogParse

  /** The statement every batch is prepared against. */
  const InsertStatement: string := "INSERT INTO mikrotik_logs"

  /** A value handed to the sink's `Append`, one per column. */
  datatype Value =
    | TimeValue(instant: Instant)
    | StringValue(str: string)
    | Int8Value(int8: Int8)
    | StringArrayValue(strs: seq<string>)

  /** The five column values of a record, in table order: timestamp, device, severity, categories, message. */
  function Columns(l: LogData): (row: seq<Value>)
    ensures |row| == 5
    ensures DecodeRow(row) == Some(l)
  {
    [TimeValue(l.timestamp), StringValue(l.device), Int8Value(l.severity),
     StringArrayValue(l.categories), StringValue(l.message)]
  }

  /** Reads a record back from a row of column values, if the row has the table's shape. */
  function DecodeRow(row: seq<Value>): Option<LogData>
  {
    if |row| == 5 && row[0].TimeValue? && row[1].StringValue? && row[2].Int8Value?
       && row[3].StringArrayValue? && row[4].StringValue?
    then Some(LogData(row[0].instant, row[1].str, row[2].int8, row[3].strs, row[4].str))
    else None
  }

  /** One call made on the sink. */
  datatype SinkCall = PrepareBatch(statement: string) | Append(row: seq<Value>) | Send

  /** One diagnostic line the flush writes to the log. */
  datatype Diagnostic =
    | PrepareFailed
    | AppendFailed(index: nat)
    | SendFailed(batchSize: nat)
    | Written(count: nat)

  /**
   What the sink answers during one flush: whether preparing the batch
   succeeds, the positions in the batch whose append fails, and whether
   sending succeeds.
   */
  datatype Sink = Sink(prepareOk: bool, failingAppends: set<nat>, sendOk: bool)

  /** The calls and the diagnostics of one flush. */
  datatype FlushOutcome = FlushOutcome(calls: seq<SinkCall>, diagnostics: seq<Diagnostic>)

  /**
   The positions, among `count` records whose first sits at position `from`
   of the batch, whose append fails: exactly the failing ones, each once, in
   increasing order, whatever the earlier appends answered.
   */
  function FailedPositions(sink: Sink, from: nat, count: nat): (p: seq<nat>)
    ensures forall k :: 0 <= k < |p| ==> from <= p[k] < from + count && p[k] in sink.failingAppends
    ensures forall i :: from <= i < from + count && i in sink.failingAppends ==> i in p
    ensures forall k, m :: 0 <= k < m < |p| ==> p[k] < p[m]
    decreases count
  {
    if count == 0 then []
    else
      var rest := FailedPositions(sink, from + 1, count - 1);
      if from !in sink.failingAppends then rest else [from] + rest
  }

  /**
   The sink calls of one flush: prepare the batch; if that fails, stop with no
   append and no send; otherwise append every record in order, in the fixed
   column order, and send exactly once, whatever the appends answered.
   */
  function FlushCalls(logs: seq<LogData>, sink: Sink): (calls: seq<SinkCall>)
    ensures |calls| >= 1 && calls[0] == PrepareBatch(InsertStatement)
    ensures !sink.prepareOk ==> calls == [PrepareBatch(InsertStatement)]
    ensures sink.prepareOk ==>
              && |calls| == |logs| + 2
              && (forall i :: 0 <= i < |logs| ==> calls[i + 1] == Append(Columns(logs[i])))
              && calls[|logs| + 1] == Send
  {
    if !sink.prepareOk then [PrepareBatch(InsertStatement)]
    else
      var appends := seq(|logs|, i requires 0 <= i < |logs| => Append(Columns(logs[i])));
      [PrepareBatch(InsertStatement)] + appends + [Send]
  }

  /**
   The diagnostics of one flush: a single line when the batch cannot be
   prepared; otherwise one line per failed append, in order, then one line
   carrying the batch size that says whether the send failed or succeeded.
   */
  function FlushReports(logs: seq<LogData>, sink: Sink): (d: seq<Diagnostic>)
    ensures !sink.prepareOk ==> d == [PrepareFailed]
    ensures sink.prepareOk ==>
              && |d| >= 1
              && d[|d| - 1] == (if sink.sendOk then Written(|logs|) else SendFailed(|logs|))
              && (forall i :: 0 <= i < |logs| ==> (AppendFailed(i) in d <==> i in sink.failingAppends))
              && (forall k :: 0 <= k < |d| - 1 ==> d[k].AppendFailed? && d[k].index < |logs|)
              && (forall k, m :: 0 <= k < m < |d| - 1 ==> d[k].index < d[m].index)
  {
    if !sink.prepareOk then [PrepareFailed]
    else
      var sent := if sink.sendOk then Written(|logs|) else SendFailed(|logs|);
      var failed := FailedPositions(sink, 0, |logs|);
      ReportsOfPositions(failed);
      ReportsOf(failed) + [sent]
  }

  /** One `AppendFailed` line per failed position, in the same order. */
  function ReportsOf(failed: seq<nat>): seq<Diagnostic>
  {
    seq(|failed|, k requires 0 <= k < |failed| => AppendFailed(failed[k]))
  }

  /** The report lines name exactly the failed positions, in their order. */
  lemma ReportsOfPositions(failed: seq<nat>)
    ensures |ReportsOf(failed)| == |failed|
    ensures forall k :: 0 <= k < |failed| ==> ReportsOf(failed)[k] == AppendFailed(failed[k])
    ensures forall i :: AppendFailed(i) in ReportsOf(failed) <==> i in failed
  {
    var reports := ReportsOf(failed);
    assert forall k :: 0 <= k < |failed| ==> reports[k] == AppendFailed(failed[k]) && reports[k] in reports;
  }

  /** Everything one flush does: its sink calls and its diagnostics. */
  function FlushLogs(logs: seq<LogData>, sink: Sink): FlushOutcome
  {
    FlushOutcome(FlushCalls(logs, sink), FlushReports(logs, sink))
  }

  /** The records carried by the `Append` calls of a trace, in call order. */
  function AppendedRecords(calls: seq<SinkCall>): seq<LogData>
    decreases |calls|
  {
    if |calls| == 0 then []
    else
      var last := calls[|calls| - 1];
      var earlier := AppendedRecords(calls[..|calls| - 1]);
      if last.Append? && DecodeRow(last.row).Some? then earlier + [DecodeRow(last.row).value] else earlier
  }

  /** Reading records back distributes over concatenated traces. */
  lemma {:induction false} AppendedRecordsConcat(a: seq<SinkCall>, b: seq<SinkCall>)
    ensures AppendedRecords(a + b) == AppendedRecords(a) + AppendedRecords(b)
    decreases |b|
  {
    if |b| == 0 {
      assert a + b == a;
    } else {
      assert (a + b)[..|a + b| - 1] == a + b[..|b| - 1];
      AppendedRecordsConcat(a, b[..|b| - 1]);
    }
  }

  /** A run of appends of the rows of `logs` reads back as `logs`. */
  lemma {:induction false} AppendedRecordsOfRows(logs: seq<LogData>, calls: seq<SinkCall>)
    requires |calls| == |logs|
    requires forall i :: 0 <= i < |logs| ==> calls[i] == Append(Columns(logs[i]))
    ensures AppendedRecords(calls) == logs
    decreases |logs|
  {
    if |logs| > 0 {
      var n := |logs| - 1;
      AppendedRecordsOfRows(logs[..n], calls[..n]);
      assert logs == logs[..n] + [logs[n]];
    }
  }

  /**
   The records a flush hands to the sink, read back from its `Append` calls,
   are exactly the batch in order when the batch could be prepared, and
   nothing otherwise.
   */
  lemma FlushAppendsBatch(logs: seq<LogData>, sink: Sink)
    ensures AppendedRecords(FlushCalls(logs, sink)) == (if sink.prepareOk then logs else [])
  {
    if sink.prepareOk {
      var appends := seq(|logs|, i requires 0 <= i < |logs| => Append(Columns(logs[i])));
      assert FlushCalls(logs, sink) == [PrepareBatch(InsertStatement)] + appends + [Send];
      AppendedRecordsConcat([PrepareBatch(InsertStatement)], appends);
      AppendedRecordsConcat([PrepareBatch(InsertStatement)] + appends, [Send]);
      AppendedRecordsOfRows(logs, appends);
      assert AppendedRecords([PrepareBatch(InsertStatement)]) == [];
    }
  }

  /** An event of the engine's loop: a record arrives from the channel, or the timer ticks. */
  datatype Event = Receive(log: LogData) | Tick

  /** The buffer after one event, and the batch flushed while handling it, if any. */
  datatype StepResult = StepResult(buffer: seq<LogData>, flushed: Option<seq<LogData>>)

  /** The records the `Receive` events carry, in arrival order. */
  function Received(events: seq<Event>): seq<LogData>
    decreases |events|
  {
    if |events| == 0 then []
    else
      var last := events[|events| - 1];
      Received(events[..|events| - 1]) + (if last.Receive? then [last.log] else [])
  }

  /** The records of an optional batch. */
  function Batch(flushed: Option<seq<LogData>>): seq<LogData>
  {
    if flushed.Some? then flushed.value else []
  }

  /**
   One pass of the loop. A received record is appended to the buffer, which is
   flushed whole when it then holds `cacheSize` records or more; a tick
   flushes a non-empty buffer and does nothing to an empty one. Records are
   neither lost, duplicated nor reordered; every flush is non-empty and
   leaves the buffer empty; and a buffer below the threshold stays below it.
   */
  function Step(cacheSize: int, buffer: seq<LogData>, ev: Event): (r: StepResult)
    ensures Batch(r.flushed) + r.buffer == buffer + Received([ev])
    ensures r.flushed.Some? ==> r.flushed.value != [] && r.buffer == []
    ensures ev.Receive? ==> (r.flushed.Some? <==> |buffer| + 1 >= cacheSize)
    ensures ev.Tick? ==> (r.flushed.Some? <==> buffer != [])
    ensures 1 <= cacheSize && |buffer| < cacheSize ==> |r.buffer| < cacheSize
  {
    assert [ev][..0] == [];
    match ev
    case Receive(l) =>
      var grown := buffer + [l];
      if |grown| >= cacheSize then StepResult([], Some(grown)) else StepResult(grown, None)
    case Tick =>
      if |buffer| > 0 then StepResult([], Some(buffer)) else StepResult(buffer, None)
  }

  /**
   A received record that brings the buffer to the threshold is flushed
   together with everything before it, as the last record of the batch,
   and the buffer is empty afterwards.
   */
  lemma ThresholdFlushEndsWithRecord(cacheSize: int, buffer: seq<LogData>, l: LogData)
    requires |buffer| + 1 >= cacheSize
    ensures var r := Step(cacheSize, buffer, Receive(l));
            && r.flushed == Some(buffer + [l])
            && r.flushed.value[|r.flushed.value| - 1] == l
            && r.buffer == []
  {
  }

  /** The engine after a sequence of events: what is still buffered and the batches flushed so far, in order. */
  datatype Engine = Engine(buffer: seq<LogData>, batches: seq<seq<LogData>>)

  /**
   The engine's loop over `events`, starting from an empty buffer. The sink
   plays no part in it: a flushed batch leaves the buffer whatever the sink
   answers.
   */
  function Run(cacheSize: int, events: seq<Event>): Engine
    decreases |events|
  {
    if |events| == 0 then Engine([], [])
    else
      var prev := Run(cacheSize, events[..|events| - 1]);
      var s := Step(cacheSize, prev.buffer, events[|events| - 1]);
      Engine(s.buffer, if s.flushed.Some? then prev.batches + [s.flushed.value] else prev.batches)
  }

  /** The concatenation of batches, in order. */
  function Flatten(batches: seq<seq<LogData>>): seq<LogData>
    decreases |batches|
  {
    if |batches| == 0 then [] else Flatten(batches[..|batches| - 1]) + batches[|batches| - 1]
  }

  /** One event more adds the step's flushed batch, if any, to the flattened batches. */
  lemma FlattenAfterStep(cacheSize: int, events: seq<Event>)
    requires |events| > 0
    ensures var n := |events| - 1;
            var prev := Run(cacheSize, events[..n]);
            var s := Step(cacheSize, prev.buffer, events[n]);
            && Run(cacheSize, events).buffer == s.buffer
            && Flatten(Run(cacheSize, events).batches) == Flatten(prev.batches) + Batch(s.flushed)
  {
    var n := |events| - 1;
    var prev := Run(cacheSize, events[..n]);
    var s := Step(cacheSize, prev.buffer, events[n]);
    if s.flushed.Some? {
      var bs := prev.batches + [s.flushed.value];
      assert bs[..|bs| - 1] == prev.batches;
    } else {
      assert prev.batches == Run(cacheSize, events).batches;
    }
  }

  /** One event more adds the record it carries, if any, to the received records. */
  lemma ReceivedSnoc(events: seq<Event>)
    requires |events| > 0
    ensures Received(events) == Received(events[..|events| - 1]) + Received([events[|events| - 1]])
  {
    assert [events[|events| - 1]][..0] == [];
  }

  /**
   Conservation: the flushed batches in order, followed by what is still
   buffered, are exactly the received records in arrival order.
   */
  lemma {:induction false} RunConservation(cacheSize: int, events: seq<Event>)
    ensures var e := Run(cacheSize, events);
            Flatten(e.batches) + e.buffer == Received(events)
    decreases |events|
  {
    if |events| > 0 {
      var n := |events| - 1;
      var prev := Run(cacheSize, events[..n]);
      var s := Step(cacheSize, prev.buffer, events[n]);
      RunConservation(cacheSize, events[..n]);
      FlattenAfterStep(cacheSize, events);
      ReceivedSnoc(events);
      Regroup(Flatten(prev.batches), prev.buffer, Batch(s.flushed), s.buffer, Received([events[n]]));
    }
  }

  /** Regrouping the concatenations of one conservation step. */
  lemma Regroup(flat: seq<LogData>, buffer: seq<LogData>, batch: seq<LogData>, buffer': seq<LogData>, arrived: seq<LogData>)
    requires batch + buffer' == buffer + arrived
    ensures (flat + batch) + buffer' == (flat + buffer) + arrived
  {
    calc {
      (flat + batch) + buffer';
      flat + (batch + buffer');
      flat + (buffer + arrived);
      (flat + buffer) + arrived;
    }
  }

  /**
   With a threshold of at least one record, the buffer always holds fewer
   records than the threshold and every flushed batch holds between one and
   `cacheSize` records.
   */
  lemma {:induction false} RunBounds(cacheSize: int, events: seq<Event>)
    requires cacheSize >= 1
    ensures var e := Run(cacheSize, events);
            && |e.buffer| < cacheSize
            && forall i :: 0 <= i < |e.batches| ==> 1 <= |e.batches[i]| <= cacheSize
    decreases |events|
  {
    if |events| > 0 {
      RunBounds(cacheSize, events[..|events| - 1]);
    }
  }

  /** A tick on an empty buffer flushes nothing and changes nothing. */
  lemma IdleTick(cacheSize: int, events: seq<Event>)
    requires Run(cacheSize, events).buffer == []
    ensures Run(cacheSize, events + [Tick]) == Run(cacheSize, events)
  {
    assert (events + [Tick])[..|events|] == events;
  }

  /** The sink calls of a sequence of flushes, the n-th (from 0) meeting the sink answers `sinks(n)`. */
  function SinkCalls(batches: seq<seq<LogData>>, sinks: nat -> Sink): seq<SinkCall>
    decreases |batches|
  {
    if |batches| == 0 then []
    else
      var n := |batches| - 1;
      SinkCalls(batches[..n], sinks) + FlushLogs(batches[n], sinks(n)).calls
  }

  /** The diagnostics of a sequence of flushes, the n-th (from 0) meeting the sink answers `sinks(n)`. */
  function SinkDiagnostics(batches: seq<seq<LogData>>, sinks: nat -> Sink): seq<Diagnostic>
    decreases |batches|
  {
    if |batches| == 0 then []
    else
      var n := |batches| - 1;
      SinkDiagnostics(batches[..n], sinks) + FlushLogs(batches[n], sinks(n)).diagnostics
  }

  /**
   When every batch can be prepared, the records handed to the sink across a
   sequence of flushes, read back from the `Append` calls, are the batches'
   records in order; with `RunConservation`, those of a run followed by its
   buffer are the received records.
   */
  lemma {:induction false} SinkReceivesBatchesInOrder(batches: seq<seq<LogData>>, sinks: nat -> Sink)
    requires forall n: nat :: n < |batches| ==> sinks(n).prepareOk
    ensures AppendedRecords(SinkCalls(batches, sinks)) == Flatten(batches)
    decreases |batches|
  {
    if |batches| > 0 {
      var n := |batches| - 1;
      SinkReceivesBatchesInOrder(batches[..n], sinks);
      AppendedRecordsConcat(SinkCalls(batches[..n], sinks), FlushCalls(batches[n], sinks(n)));
      FlushAppendsBatch(batches[n], sinks(n));
    }
  }

  /** A flush whose batch cannot be prepared hands the sink no record at all. */
  lemma {:induction false} FailedPrepareDropsBatch(batches: seq<seq<LogData>>, sinks: nat -> Sink)
    requires forall n: nat :: n < |batches| ==> !sinks(n).prepareOk
    ensures AppendedRecords(SinkCalls(batches, sinks)) == []
    decreases |batches|
  {
    if |batches| > 0 {
      var n := |batches| - 1;
      FailedPrepareDropsBatch(batches[..n], sinks);
      AppendedRecordsConcat(SinkCalls(batches[..n], sinks), FlushCalls(batches[n], sinks(n)));
      FlushAppendsBatch(batches[n], sinks(n));
    }
  }
}

# Syslog handler core: log-line parser and batching engine

This project is a Dafny model of the two pieces of logic in the syslog handler
that feeds a ClickHouse table:

- **The log-line parser** (`ParseLog` in `lib/lopParse.go`). It turns one
  received datagram text, plus the sender's address, into a `LogData` record.
  The record holds a timestamp, the device, a severity code 0–7 (Table 2 of
  section 6.2.1 of RFC 5424), an ordered list of categories and a message. A
  line shaped `tag0,severity,tag1,... free text` gives a structured record.
  Any other line gives the fallback record: Info, `["unknown"]`, and the whole
  line as the message.
- **The batching engine** (`CacheFlush` and `flushLogs` in
  `lib/cacheManage.go`). Records are collected in a buffer. The buffer is
  flushed when it reaches `CacheSize` records, or when the timer ticks and the
  buffer is not empty. Each flush prepares a batch, appends every record and
  sends the batch, and the buffer is cleared whatever the sink answers.

Modules:

- `Wrappers` (`wrappers.dfy`): `Option` and `Result`.
- `Strings` (`strings.dfy`): Go's `strings.Split` and `strings.SplitN(s, sep, 2)` for a
  one-character separator, with `Join` as their inverse.
- `LogParse` (`log_parse.dfy`): the severity constants, `LogData`, the keyword table, the
  guarded parser, and the parser exactly as written.
- `ParseExamples` (`parse_examples.dfy`): worked log lines.
- `CacheManage` (`cache_manage.dfy`):
  - `flushLogs` as a trace of sink calls plus its diagnostic lines;
  - the loop as a step function over `Receive`/`Tick` events;
  - a run of that loop over a finite sequence of events.

The clock, the sink and the timer are parameters. `now` is the instant the
clock would give. A `Sink` value says which of prepare, append and send
succeed in one flush. `Tick` is an event of its own.

## Model

| member | source | states |
|---|---|---|
| `Strings.SplitFirst` | lib/lopParse.go:31-33 | One part (the whole line) exactly when there is no space. Otherwise the head has no space and head + " " + rest is the line, so later spaces stay in the rest. |
| `Strings.SplitFirstUnique` | lib/lopParse.go:31-33 | Take any split of a line into a space-free head, a space and a tail. The first-space split returns exactly that head and tail. |
| `Strings.SplitAll` | lib/lopParse.go:45 | The comma split always has at least one part (`""` gives `[""]`). No part contains a comma, and joining the parts with commas gives the header back. |
| `Strings.SplitAllJoin` | lib/lopParse.go:45 | Splitting a comma-join of comma-free parts gives back exactly those parts (the reverse round trip). |
| `Strings.SplitAllArity` | lib/lopParse.go:34 | The header splits into two or more comma tokens exactly when it contains a comma. |
| `Strings.SplitAllNoSep` | lib/lopParse.go:34 | A header without a comma is a single token. |
| `Strings.JoinExcludes` | lib/lopParse.go:45 | A comma-join of space-free parts contains no space. |
| `LogParse.KeywordSeverity` | lib/lopParse.go:51-72 | A token gets a severity exactly when it is in the keyword table, matched case-sensitively. The severity is the table's entry for it and lies in 0..7. Every other token falls to the default arm. |
| `LogParse.EveryLevelHasKeyword` | lib/lopParse.go:52-68 | Every one of the eight severity codes is named by at least one keyword. |
| `LogParse.ParseLog` | lib/lopParse.go:29-81 | On every line: the severity is in 0..7 whichever branch is taken, there is at least one category, and the device and timestamp are exactly the ones supplied. |
| `LogParse.ParseMessageIsSuffix` | lib/lopParse.go:31-33 | The message is always a suffix of the raw line: either the whole line or the text after the first space. |
| `LogParse.ParseLogAsWritten` | lib/lopParse.go:31-34 | The code as written panics (index 1 out of range, length 1) exactly on lines without a space, the empty line included. On every other line it returns what the guarded parser returns. |
| `LogParse.ParseNoSpace` | lib/lopParse.go:34-41 | A line with no space gets the fallback record: Info, `["unknown"]`, the whole line as message. |
| `LogParse.ParseHeaderWithoutComma` | lib/lopParse.go:34-41 | A line whose header has no comma gets the fallback record. This includes the empty header of a line that starts with a space. |
| `LogParse.ParseStructured` | lib/lopParse.go:45-79 | For `header + " " + message` where the header has no space and has a comma: the message is exactly `message`. With a known keyword, the severity comes from the table and the categories are `[topics[0]] + topics[2..]` (one fewer than the topics). With an unknown token, the severity is Info and the token is added at the end of the categories (as many categories as topics). |
| `LogParse.ParseJoinedTopics` | lib/lopParse.go:45-79 | Join space-free, comma-free topics with commas, add a space and a message, and parse the line. The result gives back the message and the topics as categories, following the same rule. |
| `LogParse.ParseFallbackIff` | lib/lopParse.go:31-42 | The fallback record is returned exactly on lines that have no tag header. A tag header is a comma in the text before the first space. |
| `ParseExamples.CriticalInterfaceLine` | lib/lopParse.go:45-79 | `network,critical,interface <msg>` gives Critical, `["network","interface"]`, `<msg>`, and the given device. |
| `ParseExamples.UnknownTokenLine` | lib/lopParse.go:69-71 | `a,b <msg>` gives Info and `["a","b"]`: the unknown token `b` is kept as the last category. |
| `ParseExamples.DebugLineWithSpaces` | lib/lopParse.go:45-79 | `x,debug,y,z <msg>` gives Debug, `["x","y","z"]`, and `<msg>` with all of its spaces. |
| `ParseExamples.SingleTagLine` | lib/lopParse.go:34-41 | `kernel panic` has a one-token header, so it gets the fallback record. |
| `ParseExamples.SpacelessLinePanicsAsWritten` | lib/lopParse.go:31-34 | On `hello`, the code as written panics, and the guarded parser returns the fallback record. |
| `CacheManage.Columns` | lib/cacheManage.go:48-54 | Each append passes five values in the order (timestamp, device, severity, categories, message). They decode back to exactly the record. |
| `CacheManage.FailedPositions` | lib/cacheManage.go:46-58 | The failed appends are found position by position. The result holds exactly the failing positions, each once, in increasing order. A failure does not stop the later appends. |
| `CacheManage.FlushCalls` | lib/cacheManage.go:40-60 | If prepare fails, that is the only call: no Append and no Send. Otherwise the calls are prepare, one Append per record in order with the five columns, then exactly one Send, whatever the appends answered. |
| `CacheManage.FlushReports` | lib/cacheManage.go:40-64 | A failed prepare gives one diagnostic line. Otherwise there is one line per failed append, exactly the failing positions in order. The last line carries the batch size and says whether the send failed or the batch was written. |
| `CacheManage.FlushAppendsBatch` | lib/cacheManage.go:40-58 | The records a flush passes to the sink, read back from its Append calls, are the batch in order when prepare succeeds, and nothing when it fails. |
| `CacheManage.Step` | lib/cacheManage.go:17-29 | A Receive appends the record, then flushes exactly when the new length is >= CacheSize. A Tick flushes exactly when the buffer is non-empty. No record is lost, duplicated or reordered. Every flush is non-empty and empties the buffer. A buffer below the threshold stays below it. |
| `CacheManage.ThresholdFlushEndsWithRecord` | lib/cacheManage.go:17-22 | The record that reaches the threshold is the last record of the batch it triggers, and the buffer is empty afterwards. |
| `CacheManage.RunConservation` | lib/cacheManage.go:15-31 | After any sequence of events, the flushed batches in order, followed by the current buffer, are exactly the received records in arrival order. |
| `CacheManage.RunBounds` | lib/cacheManage.go:18-29 | With CacheSize >= 1, the buffer always holds fewer than CacheSize records. Every flushed batch holds between 1 and CacheSize records. |
| `CacheManage.IdleTick` | lib/cacheManage.go:24-29 | A Tick on an empty buffer flushes nothing and leaves the engine unchanged. |
| `CacheManage.SinkReceivesBatchesInOrder` | lib/cacheManage.go:19-58 | When every prepare succeeds, the records the sink receives across all flushes are the batches' records in order. |
| `CacheManage.FailedPrepareDropsBatch` | lib/cacheManage.go:40-44 | When every prepare fails, the sink receives no record: the batches are dropped. |

## Findings

| source | as written | input that shows it | evidently intended | confidence | as-written member | corrected member |
|---|---|---|---|---|---|---|
| lib/lopParse.go:31-34 | `parts[1]` is read on line 33, before the `len(parts) < 2` guard on line 34. | `hello`, or any line without a space, the empty datagram included: `strings.SplitN` returns one part, so index 1 is out of range. | Such a line takes the fallback record (Info, `["unknown"]`, whole line as message). | high; not executed | `LogParse.ParseLogAsWritten` (shown on `hello` by `ParseExamples.SpacelessLinePanicsAsWritten`) | `LogParse.ParseLog` (with `LogParse.ParseNoSpace` and `LogParse.ParseFallbackIff`) |

The corrected parser is the one the rest of the model uses. It splits first,
then decides fallback or structured from the number of parts. It reads the
second part only on the structured path.

## Behaviour of the code worth noting

- The split is on the single space character `' '` only, as
  `strings.SplitN(messageRaw, " ", 2)` does. A tab or any other whitespace
  stays in the header.
- A header with exactly two comma tokens, such as `a,b c`, is structured. It
  does not take the fallback: only fewer than two tokens do
  (`ParseExamples.UnknownTokenLine`).
- `CacheSize` is a Go `int`, so `Step` accepts any threshold. With a
  threshold of 0 or less, every received record is flushed at once. The buffer
  bound is stated for thresholds of at least 1.

## Left out

- `main.go` as a whole: flag parsing, `.env` loading, the ClickHouse
  connection and ping, the UDP listener and its read loop, and the conversion
  from bytes to string. All of this is I/O and start-up. Its constants (1000
  records, 2 seconds, 10000 channel slots) become the `cacheSize` parameter and
  the `Tick` event.
- The goroutine and the buffered channel (`BufferLimit`), including its
  blocking back-pressure. These are about concurrency. The engine sees only a
  sequence of events, and a `Run` covers a finite prefix of the endless loop.
- Real time: the ticker, the 10-second timeout on each flush, and `time.Now()`.
  The timestamp is the `now` parameter, and the ticker is the `Tick` event.
- The ClickHouse driver. An abstract `Sink` replaces it: each flush is told
  whether prepare succeeds, which positions fail to append, and whether send
  succeeds. Error values are not modelled, only which step failed.
- `log.Printf` and `fmt.Printf`. Each becomes a `Diagnostic` value, not a
  formatted text. `AppendFailed` carries the position of the failed record;
  the Go line prints only the error.
- `net.UDPAddr.String()`. The device string is taken as given, and a nil
  address is not modelled.
- Byte-level strings. Go strings are byte sequences, and here a line is a
  sequence of characters. Splitting on the ASCII space and comma gives the
  same parts either way.
- Keywords that map to the same code (`fatal` and `emergency`, or `debug`,
  `packet` and `raw`) cannot be told apart after parsing. No lemma rebuilds
  the header from a record with a known keyword.

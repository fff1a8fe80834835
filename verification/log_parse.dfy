/**
 The log-line parser of lib/lopParse.go: a raw datagram text plus the sender's
 address becomes one `LogData` record. A line of the shape
 `tag0,severity,tag1,... free text` yields a structured record; any other line
 yields a fallback record that keeps the whole text as its message.
 */
module LogParse {
  import opened Wrappers
  import opened Strings

  /** Go's `int8`, the width of the severity column. */
  type Int8 = x: int | -128 <= x < 128

  /** A capture instant as read from the clock; the clock itself is a parameter. */
  type Instant = int

  // Severity codes of Table 2 in section 6.2.1 of RFC 5424.
  const SevEmergency: Int8 := 0
  const SevAlert: Int8 := 1
  const SevCritical: Int8 := 2
  const SevError: Int8 := 3
  const SevWarning: Int8 := 4
  const SevNotice: Int8 := 5
  const SevInfo: Int8 := 6
  const SevDebug: Int8 := 7

  /** One of the eight RFC 5424 severity codes. */
  predicate IsSeverity(v: int)
  {
    SevEmergency <= v <= SevDebug
  }

  /** The parsed record. */
  datatype LogData = LogData(
    timestamp: Instant,
    device: string,
    severity: Int8,
    categories: seq<string>,
    message: string)

  /** The single category of a line that does not carry a tag header. */
  const UnknownCategory: string := "unknown"

  /** The record for a line without a usable tag header: Info, `["unknown"]`, whole line as message. */
  function Fallback(raw: string, device: string, now: Instant): LogData
  {
    LogData(now, device, SevInfo, [UnknownCategory], raw)
  }

  /** The severity keywords the parser recognises, exactly and case-sensitively. */
  const SeverityKeywords: map<string, Int8> := map[
    "fatal" := SevEmergency, "emergency" := SevEmergency,
    "alert" := SevAlert,
    "critical" := SevCritical,
    "error" := SevError,
    "warning" := SevWarning,
    "notice" := SevNotice,
    "info" := SevInfo,
    "debug" := SevDebug, "packet" := SevDebug, "raw" := SevDebug]

  /**
   The `switch topics[1]` of the parser: the severity a keyword names, or
   `None` for the `default` arm. It agrees with the keyword table and never
   yields a code outside the RFC 5424 range.
   */
  function KeywordSeverity(token: string): (sev: Option<Int8>)
    ensures sev.Some? <==> token in SeverityKeywords
    ensures sev.Some? ==> sev.value == SeverityKeywords[token] && IsSeverity(sev.value)
  {
    if token == "fatal" || token == "emergency" then Some(SevEmergency)
    else if token == "alert" then Some(SevAlert)
    else if token == "critical" then Some(SevCritical)
    else if token == "error" then Some(SevError)
    else if token == "warning" then Some(SevWarning)
    else if token == "notice" then Some(SevNotice)
    else if token == "info" then Some(SevInfo)
    else if token == "debug" || token == "packet" || token == "raw" then Some(SevDebug)
    else None
  }

  /** Every one of the eight severity codes is named by at least one keyword. */
  lemma EveryLevelHasKeyword(v: int)
    requires IsSeverity(v)
    ensures exists t :: t in SeverityKeywords && SeverityKeywords[t] == v
  {
    var names := ["emergency", "alert", "critical", "error", "warning", "notice", "info", "debug"];
    assert names[v] in SeverityKeywords && SeverityKeywords[names[v]] == v;
  }

  /**
   The structured record built from the comma topics of a tag header: the
   severity token `topics[1]` is dropped from the categories when it is a
   keyword and moved to the end of them when it is not.
   */
  function FromTopics(topics: seq<string>, message: string, device: string, now: Instant): LogData
    requires |topics| >= 2
  {
    var categories := [topics[0]] + topics[2..];
    match KeywordSeverity(topics[1])
    case Some(sev) => LogData(now, device, sev, categories, message)
    case None => LogData(now, device, SevInfo, categories + [topics[1]], message)
  }

  /**
   The decision taken once the line has been split at its first space: a
   line without a space, or whose header has fewer than two comma tokens,
   takes the fallback record.
   */
  function FromParts(raw: string, parts: seq<string>, device: string, now: Instant): LogData
    requires 1 <= |parts| <= 2
  {
    if |parts| < 2 || |SplitAll(parts[0], ',')| < 2 then Fallback(raw, device, now)
    else FromTopics(SplitAll(parts[0], ','), parts[1], device, now)
  }

  /**
   Parses one log line received from `device` at instant `now`, checking that
   the line was split in two before it reads the part after the space.
   The result always carries a valid severity, at least one category, the
   given device and instant.
   */
  function ParseLog(raw: string, device: string, now: Instant): (r: LogData)
    ensures IsSeverity(r.severity)
    ensures |r.categories| >= 1
    ensures r.device == device && r.timestamp == now
  {
    FromParts(raw, SplitFirst(raw, ' '), device, now)
  }

  /** The message of every parsed line is a suffix of the line: nothing is added to it. */
  lemma ParseMessageIsSuffix(raw: string, device: string, now: Instant)
    ensures var r := ParseLog(raw, device, now);
            |r.message| <= |raw| && raw[|raw| - |r.message|..] == r.message
  {
    var parts := SplitFirst(raw, ' ');
    assert |parts| == 2 ==> raw[|parts[0]| + 1..] == parts[1];
  }

  /** Why the parser as written stops: Go's index-out-of-range panic. */
  datatype Panic = IndexOutOfRange(index: nat, length: nat)

  /**
   The parser exactly as written: it reads `parts[1]` before the guard that
   checks the split produced two parts, so a line with no space at all
   (the empty line included) panics instead of taking the fallback. On every
   other line it returns what the guarded parser returns.
   */
  function ParseLogAsWritten(raw: string, device: string, now: Instant): (r: Result<LogData, Panic>)
    ensures r.Failure? <==> ' ' !in raw
    ensures r.Failure? ==> r.error == IndexOutOfRange(1, 1)
    ensures r.Success? ==> r.value == ParseLog(raw, device, now)
  {
    var parts := SplitFirst(raw, ' ');
    if |parts| <= 1 then Failure(IndexOutOfRange(1, |parts|))
    else Success(FromParts(raw, parts, device, now))
  }

  /** A line whose text before its first space contains a comma: the structured shape. */
  predicate HasTagHeader(raw: string)
  {
    exists i :: 0 <= i < |raw| && raw[i] == ' ' && ' ' !in raw[..i] && ',' in raw[..i]
  }

  /** A line with no space takes the fallback record. */
  lemma ParseNoSpace(raw: string, device: string, now: Instant)
    requires ' ' !in raw
    ensures ParseLog(raw, device, now) == Fallback(raw, device, now)
  {
  }

  /**
   A line whose header (the text before its first space) has no comma takes
   the fallback record; the empty header of a line starting with a space is
   one such header.
   */
  lemma ParseHeaderWithoutComma(header: string, message: string, device: string, now: Instant)
    requires ' ' !in header && ',' !in header
    ensures ParseLog(header + " " + message, device, now) == Fallback(header + " " + message, device, now)
  {
    SplitFirstUnique(header, message, ' ');
    SplitAllNoSep(header, ',');
  }

  /**
   A line `header + " " + message` whose header has no space and at least one
   comma is parsed into the message after the first space, untouched, and
   categories taken from the comma topics of the header in their order:
   with a recognised severity keyword the token is dropped (one category
   fewer than topics); otherwise the severity is Info and the token is
   appended as the last category (as many categories as topics).
   */
  lemma ParseStructured(header: string, message: string, device: string, now: Instant)
    requires ' ' !in header && ',' in header
    ensures var topics := SplitAll(header, ',');
            var r := ParseLog(header + " " + message, device, now);
            && |topics| >= 2
            && r.message == message
            && (KeywordSeverity(topics[1]).Some? ==>
                  && r.severity == SeverityKeywords[topics[1]]
                  && r.categories == [topics[0]] + topics[2..]
                  && |r.categories| == |topics| - 1)
            && (KeywordSeverity(topics[1]).None? ==>
                  && r.severity == SevInfo
                  && r.categories == [topics[0]] + topics[2..] + [topics[1]]
                  && |r.categories| == |topics|)
  {
    SplitFirstUnique(header, message, ' ');
    SplitAllArity(header, ',');
  }

  /**
   Writing space-free, comma-free topics as a comma-joined header followed by a
   space and a message, and parsing that line, gives back the message and the
   topics as categories (without the severity token when it is a keyword,
   with it moved to the end otherwise).
   */
  lemma ParseJoinedTopics(topics: seq<string>, message: string, device: string, now: Instant)
    requires |topics| >= 2
    requires forall i :: 0 <= i < |topics| ==> ' ' !in topics[i] && ',' !in topics[i]
    ensures var r := ParseLog(Join(topics, ',') + " " + message, device, now);
            && r.message == message
            && (KeywordSeverity(topics[1]).Some? ==>
                  r.severity == KeywordSeverity(topics[1]).value && r.categories == [topics[0]] + topics[2..])
            && (KeywordSeverity(topics[1]).None? ==>
                  r.severity == SevInfo && r.categories == [topics[0]] + topics[2..] + [topics[1]])
  {
    var header := Join(topics, ',');
    JoinExcludes(topics, ',', ' ');
    SplitAllJoin(topics, ',');
    SplitAllArity(header, ',');
    ParseStructured(header, message, device, now);
  }

  /** The parser takes the fallback record exactly on the lines without a tag header. */
  lemma ParseFallbackIff(raw: string, device: string, now: Instant)
    ensures ParseLog(raw, device, now) == Fallback(raw, device, now) <==> !HasTagHeader(raw)
  {
    if HasTagHeader(raw) {
      var i :| 0 <= i < |raw| && raw[i] == ' ' && ' ' !in raw[..i] && ',' in raw[..i];
      assert raw == raw[..i] + " " + raw[i + 1..];
      ParseStructured(raw[..i], raw[i + 1..], device, now);
    } else if ' ' in raw {
      var parts := SplitFirst(raw, ' ');
      var i := |parts[0]|;
      assert raw[..i] == parts[0];
      assert raw[i] == ' ';
      assert ',' !in parts[0];
      ParseHeaderWithoutComma(parts[0], parts[1], device, now);
    }
  }
}

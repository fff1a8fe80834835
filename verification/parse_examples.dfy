/** Worked log lines, each pinned down by the general parser lemmas. */
module ParseExamples {
  import opened Wrappers
  import opened Strings
  import opened LogParse

  /**
   A recognised keyword in the middle of three topics is dropped from the
   categories; the message after the first space is kept whatever it holds
   ("eth0 down", for one), and the device (say "10.0.0.5:514") is passed through.
   */
  lemma CriticalInterfaceLine(message: string, device: string, now: Instant)
    ensures ParseLog("network,critical,interface " + message, device, now)
         == LogData(now, device, SevCritical, ["network", "interface"], message)
  {
    var topics := ["network", "critical", "interface"];
    CriticalHeader();
    assert "network,critical,interface " + message == Join(topics, ',') + " " + message;
    assert KeywordSeverity(topics[1]) == Some(SevCritical);
    ParseJoinedTopics(topics, message, device, now);
    assert [topics[0]] + topics[2..] == ["network", "interface"];
  }

  /** An unrecognised severity token ("b" in "a,b c") becomes Info and stays as the last category. */
  lemma UnknownTokenLine(message: string, device: string, now: Instant)
    ensures ParseLog("a,b " + message, device, now) == LogData(now, device, SevInfo, ["a", "b"], message)
  {
    var topics := ["a", "b"];
    assert Join(topics, ',') + " " == "a,b ";
    assert "a,b " + message == Join(topics, ',') + " " + message;
    ParseJoinedTopics(topics, message, device, now);
    assert KeywordSeverity(topics[1]).None?;
    assert [topics[0]] + topics[2..] + [topics[1]] == ["a", "b"];
  }

  /**
   Tags after the keyword keep their order, and later spaces stay in the
   message ("payload here", for one).
   */
  lemma DebugLineWithSpaces(message: string, device: string, now: Instant)
    ensures ParseLog("x,debug,y,z " + message, device, now)
         == LogData(now, device, SevDebug, ["x", "y", "z"], message)
  {
    var topics := ["x", "debug", "y", "z"];
    DebugHeader();
    assert "x,debug,y,z " + message == Join(topics, ',') + " " + message;
    assert KeywordSeverity(topics[1]) == Some(SevDebug);
    ParseJoinedTopics(topics, message, device, now);
    assert [topics[0]] + topics[2..] == ["x", "y", "z"];
  }

  /** The comma-joined header of the critical-interface line. */
  lemma CriticalHeader()
    ensures Join(["network", "critical", "interface"], ',') == "network,critical,interface"
  {
    var topics := ["network", "critical", "interface"];
    assert Join(topics[2..], ',') == "interface";
    assert Join(topics[1..], ',') == "critical,interface";
  }

  /** The comma-joined header of the debug line. */
  lemma DebugHeader()
    ensures Join(["x", "debug", "y", "z"], ',') == "x,debug,y,z"
  {
    var topics := ["x", "debug", "y", "z"];
    assert Join(topics[3..], ',') == "z";
    assert Join(topics[2..], ',') == "y,z";
    assert Join(topics[1..], ',') == "debug,y,z";
  }

  /** A header with a single tag is not structured. */
  lemma SingleTagLine(device: string, now: Instant)
    ensures ParseLog("kernel panic", device, now) == LogData(now, device, SevInfo, ["unknown"], "kernel panic")
  {
    assert "kernel panic" == "kernel" + " " + "panic";
    ParseHeaderWithoutComma("kernel", "panic", device, now);
  }

  /**
   The parser as written panics on the line "hello", which has no space;
   the guarded parser returns the fallback record for it.
   */
  lemma SpacelessLinePanicsAsWritten(device: string, now: Instant)
    ensures ParseLogAsWritten("hello", device, now) == Failure(IndexOutOfRange(1, 1))
    ensures ParseLog("hello", device, now) == LogData(now, device, SevInfo, ["unknown"], "hello")
  {
    ParseNoSpace("hello", device, now);
  }
}

/**
 The STOMP 1.1 codec: StompFrame.marshall prints a frame, StompFrame.unmarshallSingle reads one back.
 Headers to print come as the entries of an object, in its order; read headers are an object, where a
 line without ':' leaves the value undefined.
 */
module StompFrame {
  import opened Wrappers
  import opened Text

  const LF := '\n'
  const NULL := '\0'
  const CONTENT_LENGTH := "content-length"

  /** Assigning a string to this key of an object literal is ignored. */
  const PROTO := "__proto__"

  type Entries = seq<(string, string)>
  type Headers = map<string, Option<string>>

  /** EmptyFrame is the StompFrameException; Crashed is the TypeError of a read beyond the last line. */
  datatype Parsed = Frame(command: string, headers: Headers, body: string) | EmptyFrame | Crashed

  // ---- Printing.

  function HeaderLine(entry: (string, string)): string
  {
    entry.0 + ":" + entry.1
  }

  function HeaderLines(entries: Entries): seq<string>
  {
    if entries == [] then []
    else (if entries[0].0 == CONTENT_LENGTH then [] else [HeaderLine(entries[0])]) + HeaderLines(entries[1..])
  }

  predicate HasContentLength(entries: Entries)
  {
    exists entry <- entries :: entry.0 == CONTENT_LENGTH
  }

  function LengthLine(body: string): string
  {
    HeaderLine((CONTENT_LENGTH, Decimal(Length(body))))
  }

  /** The lines before the blank one. */
  function HeadLines(command: string, entries: Entries, body: string): seq<string>
  {
    [command] + HeaderLines(entries) + if HasContentLength(entries) then [] else [LengthLine(body)]
  }

  function Marshalled(command: string, entries: Entries, body: string): string
  {
    Join(HeadLines(command, entries, body) + [[LF] + body], LF) + [NULL]
  }

  method ToString(command: string, entries: Entries, body: string) returns (text: string)
    ensures text + [NULL] == Marshalled(command, entries, body)
  {
    var lines: seq<string> := [command];
    var contentLengthHeader := false;
    assert entries[0..] == entries;
    for i := 0 to |entries|
      invariant lines + HeaderLines(entries[i..]) == [command] + HeaderLines(entries)
      invariant contentLengthHeader <==> HasContentLength(entries[..i])
    {
      assert entries[i..][1..] == entries[i + 1..];
      assert entries[..i + 1] == entries[..i] + [entries[i]];
      var (key, value) := entries[i];
      if key == CONTENT_LENGTH {
        contentLengthHeader := true;
        continue;
      }
      lines := lines + [key + ":" + value];
    }
    assert entries[..|entries|] == entries;
    if !contentLengthHeader {
      lines := lines + [CONTENT_LENGTH + ":" + Decimal(Length(body))];
    }
    assert lines == HeadLines(command, entries, body);
    lines := lines + [[LF] + body];
    text := Join(lines, LF);
  }

  /** The header lines as text. */
  function HeaderText(entries: Entries): string
  {
    if entries == [] then ""
    else if entries[0].0 == "content-length" then HeaderText(entries[1..])
    else entries[0].0 + ":" + entries[0].1 + "\n" + HeaderText(entries[1..])
  }

  method Marshall(command: string, entries: Entries, body: string) returns (text: string)
    ensures text == Marshalled(command, entries, body)
  {
    var frame := ToString(command, entries, body);
    text := frame + [NULL];
  }

  // ---- Reading.

  function WithLine(headers: Headers, line: string): Headers
  {
    var parts := Split(line, ':');
    if parts[0] == PROTO then headers
    else headers[parts[0] := if |parts| > 1 then Some(parts[1]) else None]
  }

  /** The header loop from line `i` on: the headers and the index of the blank line, or a read beyond the last line. */
  function ReadHeaders(lines: seq<string>, i: nat, headers: Headers): Option<(Headers, nat)>
    decreases |lines| - i
  {
    if i >= |lines| then None
    else if lines[i] == "" then Some((headers, i))
    else ReadHeaders(lines, i + 1, WithLine(headers, lines[i]))
  }

  function ReadBody(line: string): string
  {
    if line == [NULL] || line == "" then "" else line[..|line| - 1]
  }

  function Unmarshalled(data: string): Parsed
  {
    if data == [LF] then EmptyFrame
    else
      var lines := Split(data, LF);
      var read := ReadHeaders(lines, 1, map[]);
      if read.None? || read.value.1 + 1 >= |lines| then Crashed
      else Frame(Strip(lines[0]), read.value.0, ReadBody(lines[read.value.1 + 1]))
  }

  method UnmarshallSingle(data: string) returns (frame: Parsed)
    ensures frame == Unmarshalled(data)
  {
    if data == "\n" {
      return EmptyFrame;
    }
    var lines := Split(data, LF);
    var command := Strip(lines[0]);
    var headers: Headers := map[];
    var i := 1;
    while i < |lines| && lines[i] != ""
      invariant 1 <= i <= |lines|
      invariant ReadHeaders(lines, 1, map[]) == ReadHeaders(lines, i, headers)
    {
      var parts := Split(lines[i], ':');
      if parts[0] != PROTO {
        headers := headers[parts[0] := if |parts| > 1 then Some(parts[1]) else None];
      }
      i := i + 1;
    }
    if i + 1 >= |lines| {
      return Crashed;
    }
    var body := if lines[i + 1] == [NULL] || lines[i + 1] == "" then "" else lines[i + 1][..|lines[i + 1]| - 1];
    return Frame(command, headers, body);
  }

  /** A header line reads up to its second colon; one without a colon has no value; `__proto__` is not assigned. */
  lemma HeaderIsCut(headers: Headers, key: string, value: string, rest: string)
    requires Lacks(key, ':') && Lacks(value, ':')
    ensures WithLine(headers, key)
         == if key == "__proto__" then headers else headers[key := None]
    ensures WithLine(headers, key + ":" + value) == WithLine(headers, key + ":" + value + ":" + rest)
         == if key == "__proto__" then headers else headers[key := Some(value)]
  {
    hide Split;
    SplitWhole(key, ':');
    SplitWhole(value, ':');
    SplitAtSeparator(key, value, ':');
    SplitAtSeparator(key, value + ":" + rest, ':');
    SplitAtSeparator(value, rest, ':');
    assert key + ":" + value + ":" + rest == key + [':'] + (value + [':'] + rest);
    assert key + ":" + value == key + [':'] + value;
  }

  /** The loop stops at the first blank line, and reads beyond the last line where there is none. */
  lemma {:induction false} LoopStopsFirst(lines: seq<string>, i: nat, headers: Headers)
    ensures var read := ReadHeaders(lines, i, headers);
            && (read.None? <==> forall b | i <= b < |lines| :: lines[b] != "")
            && (read.Some? ==> i <= read.value.1 < |lines| && lines[read.value.1] == ""
                               && forall b | i <= b < read.value.1 :: lines[b] != "")
    decreases |lines| - i
  {
    if i < |lines| && lines[i] != "" {
      LoopStopsFirst(lines, i + 1, WithLine(headers, lines[i]));
    }
  }

  /** A single line feed is the empty frame; a text without a blank line before its last line is a crash. */
  lemma UnmarshalledExactly(data: string)
    ensures Unmarshalled(data) == EmptyFrame <==> data == "\n"
    ensures var lines := Split(data, '\n');
            Unmarshalled(data) == Crashed
            <==> data != "\n" && forall b | 1 <= b < |lines| - 1 :: lines[b] != ""
  {
    LoopStopsFirst(Split(data, LF), 1, map[]);
  }

  // ---- The round trip.

  ghost predicate DistinctKeys(entries: Entries)
  {
    forall i, j | 0 <= i < j < |entries| :: entries[i].0 != entries[j].0
  }

  predicate CleanText(s: string)
  {
    Lacks(s, LF) && Lacks(s, ':')
  }

  predicate CleanEntry(entry: (string, string))
  {
    entry.0 != CONTENT_LENGTH ==> CleanText(entry.0) && CleanText(entry.1) && entry.0 != PROTO
  }

  /** What a caller can check before marshalling. A content-length it supplies is not printed, so it is free. */
  predicate Printable(command: string, entries: Entries, body: string)
  {
    && Lacks(command, LF) && NoOuterSpace(command)
    && (forall entry <- entries :: CleanEntry(entry))
    && Lacks(body, LF)
  }

  /** The object with these entries, without content-length, on top of `headers`. */
  function Assigned(headers: Headers, entries: Entries): Headers
    decreases |entries|
  {
    if entries == [] then headers
    else Assigned(if entries[0].0 == CONTENT_LENGTH then headers
      else headers[entries[0].0 := Some(entries[0].1)], entries[1..])
  }

  /** The headers gain a content-length, or lose the one that was supplied. */
  function Expected(entries: Entries, body: string): Headers
  {
    var headers := Assigned(map[], entries);
    if HasContentLength(entries) then headers else headers[CONTENT_LENGTH := Some(Decimal(Length(body)))]
  }

  /** What the expected headers hold, key by key. */
  lemma {:induction false} AssignedHolds(headers: Headers, entries: Entries, key: string)
    requires DistinctKeys(entries)
    ensures forall i | 0 <= i < |entries| && entries[i].0 == key && key != CONTENT_LENGTH ::
              Lookup(Assigned(headers, entries), key) == Some(Some(entries[i].1))
    ensures (key == CONTENT_LENGTH || forall entry <- entries :: entry.0 != key) ==>
              Lookup(Assigned(headers, entries), key) == Lookup(headers, key)
    decreases |entries|
  {
    if entries != [] {
      var (k, v) := entries[0];
      AssignedHolds(if k == CONTENT_LENGTH then headers else headers[k := Some(v)], entries[1..], key);
      assert forall i | 1 <= i < |entries| :: entries[i] == entries[1..][i - 1];
      assert forall entry <- entries[1..] :: entry in entries;
    }
  }

  /** The marshalled text is the head lines, a blank line, and the body with its NUL, joined. */
  lemma MarshalledIsJoin(command: string, entries: Entries, body: string)
    ensures var head := HeadLines(command, entries, body);
            Marshalled(command, entries, body) == Join(head, LF) + [LF] + ("" + [LF] + (body + [NULL]))
  {
    var head := HeadLines(command, entries, body);
    JoinAppend(head, [LF] + body, LF);
  }

  /** Lines, each with its line feed. */
  function Lined(lines: seq<string>): string
  {
    if lines == [] then "" else lines[0] + "\n" + Lined(lines[1..])
  }

  lemma {:induction false} JoinIsLined(lines: seq<string>)
    requires lines != []
    ensures Join(lines, LF) + [LF] == Lined(lines)
    decreases |lines|
  {
    if |lines| == 1 {
      assert Lined(lines[1..]) == "";
      assert Lined(lines) == lines[0] + "\n";
    } else {
      JoinIsLined(lines[1..]);
      assert Join(lines, LF) + [LF] == lines[0] + [LF] + (Join(lines[1..], LF) + [LF]);
    }
  }

  lemma {:induction false} LinedConcat(a: seq<string>, b: seq<string>)
    ensures Lined(a + b) == Lined(a) + Lined(b)
    decreases |a|
  {
    if a == [] {
      assert a + b == b;
    } else {
      assert (a + b)[1..] == a[1..] + b;
      LinedConcat(a[1..], b);
      assert a[0] + "\n" + (Lined(a[1..]) + Lined(b)) == a[0] + "\n" + Lined(a[1..]) + Lined(b);
    }
  }

  lemma {:induction false} LinedHeaders(entries: Entries)
    ensures Lined(HeaderLines(entries)) == HeaderText(entries)
  {
    if entries != [] {
      LinedHeaders(entries[1..]);
      if entries[0].0 == CONTENT_LENGTH {
        assert HeaderLines(entries) == HeaderLines(entries[1..]);
      } else {
        assert HeaderLines(entries)[1..] == HeaderLines(entries[1..]);
      }
    }
  }

  /** The text of a frame: a line for the command and for each header, the length unless one was supplied, a blank
      line, the body and a NUL. */
  lemma MarshalledText(command: string, entries: Entries, body: string)
    ensures Marshalled(command, entries, body) == HeadText(command, entries, body) + ("\n" + (body + "\0"))
  {
    hide Lined, HeaderText, Marshalled;
    var head := HeadLines(command, entries, body);
    MarshalledIsJoin(command, entries, body);
    JoinIsLined(head);
    HeadIsText(command, entries, body);
    assert "" + [LF] + (body + [NULL]) == "\n" + (body + "\0");
  }

  /** The lines before the blank one, as text. */
  function HeadText(command: string, entries: Entries, body: string): string
  {
    command + "\n" + HeaderText(entries)
    + if exists entry <- entries :: entry.0 == "content-length" then ""
      else "content-length:" + Decimal(|Utf16(body)|) + "\n"
  }

  lemma HeadIsText(command: string, entries: Entries, body: string)
    ensures Lined(HeadLines(command, entries, body)) == HeadText(command, entries, body)
  {
    LengthCountsUnits(body);
    LinedHeaders(entries);
    LinedConcat([command], HeaderLines(entries));
    LinedLine(command);
    var lines := [command] + HeaderLines(entries);
    if HasContentLength(entries) {
      assert HeadLines(command, entries, body) == lines;
    } else {
      LinedConcat(lines, [LengthLine(body)]);
      LinedLine(LengthLine(body));
      assert LengthLine(body) == "content-length:" + Decimal(|Utf16(body)|);
    }
  }

  lemma LinedLine(line: string)
    ensures Lined([line]) == line + "\n"
  {
    assert [line][1..] == [];
  }

  lemma MarshalledSplits(command: string, entries: Entries, body: string)
    ensures var head := HeadLines(command, entries, body);
            Split(Marshalled(command, entries, body), LF) == Split(Join(head, LF), LF) + [""] + Split(body + [NULL], LF)
  {
    var head := HeadLines(command, entries, body);
    MarshalledIsJoin(command, entries, body);
    SplitAtSeparator(Join(head, LF), "" + [LF] + (body + [NULL]), LF);
    SplitAtSeparator("", body + [NULL], LF);
    assert Split("", LF) == [""];
  }

  /** The header loop stops at the first blank line. */
  lemma {:induction false} LoopStops(lines: seq<string>, i: nat, headers: Headers, blank: nat)
    requires i <= blank < |lines| && lines[blank] == ""
    ensures ReadHeaders(lines, i, headers).Some? && i <= ReadHeaders(lines, i, headers).value.1 <= blank
    decreases blank - i
  {
    if lines[i] != "" {
      LoopStops(lines, i + 1, WithLine(headers, lines[i]), blank);
    }
  }

  /** Whatever is marshalled, reading it back stays in bounds: it never throws. */
  lemma MarshalledIsReadable(command: string, entries: Entries, body: string)
    ensures Unmarshalled(Marshalled(command, entries, body)).Frame?
  {
    hide Split, ReadHeaders, HeadLines;
    var data := Marshalled(command, entries, body);
    var head := Split(Join(HeadLines(command, entries, body), LF), LF);
    MarshalledSplits(command, entries, body);
    var lines := Split(data, LF);
    assert lines[|head|] == "";
    LoopStops(lines, 1, map[], |head|);
    assert data[|data| - 1] == NULL;
  }

  /** A clean header line reads back as its entry. */
  lemma HeaderLineReads(entry: (string, string))
    requires CleanText(entry.0) && CleanText(entry.1)
    ensures Split(HeaderLine(entry), ':') == [entry.0, entry.1]
    ensures Lacks(HeaderLine(entry), LF) && HeaderLine(entry) != ""
  {
    SplitAtSeparator(entry.0, entry.1, ':');
    SplitWhole(entry.0, ':');
    SplitWhole(entry.1, ':');
  }

  lemma HeaderLineAssigns(entry: (string, string), headers: Headers)
    requires CleanEntry(entry) && entry.0 != CONTENT_LENGTH
    ensures HeaderLine(entry) != "" && WithLine(headers, HeaderLine(entry)) == headers[entry.0 := Some(entry.1)]
  {
    hide Split;
    HeaderLineReads(entry);
  }

  /** Over clean header lines the loop rebuilds the object and goes on behind them. */
  lemma {:induction false} HeadersRead(lines: seq<string>, i: nat, entries: Entries, headers: Headers)
    requires forall entry <- entries :: CleanEntry(entry)
    requires i + |HeaderLines(entries)| <= |lines| && lines[i..i + |HeaderLines(entries)|] == HeaderLines(entries)
    ensures ReadHeaders(lines, i, headers) == ReadHeaders(lines, i + |HeaderLines(entries)|, Assigned(headers, entries))
    decreases |entries|
  {
    hide Split, WithLine, HeaderLine;
    if entries != [] {
      var rest := HeaderLines(entries[1..]);
      if entries[0].0 == CONTENT_LENGTH {
        assert HeaderLines(entries) == rest;
        HeadersRead(lines, i, entries[1..], headers);
      } else {
        assert CleanEntry(entries[0]);
        HeaderLineAssigns(entries[0], headers);
        assert lines[i] == lines[i..i + |HeaderLines(entries)|][0] == HeaderLine(entries[0]);
        assert lines[i + 1..i + 1 + |rest|] == lines[i..i + |HeaderLines(entries)|][1..] == rest;
        HeadersRead(lines, i + 1, entries[1..], headers[entries[0].0 := Some(entries[0].1)]);
      }
    }
  }

  lemma {:induction false} HeaderLinesClean(entries: Entries)
    requires forall entry <- entries :: CleanEntry(entry)
    ensures forall line <- HeaderLines(entries) :: Lacks(line, LF)
  {
    hide Split;
    if entries != [] {
      HeaderLinesClean(entries[1..]);
      if entries[0].0 != CONTENT_LENGTH {
        assert CleanEntry(entries[0]);
        HeaderLineReads(entries[0]);
      }
    }
  }

  lemma LengthLineReads(body: string)
    ensures Split(LengthLine(body), ':') == [CONTENT_LENGTH, Decimal(Length(body))]
    ensures Lacks(LengthLine(body), LF) && LengthLine(body) != ""
  {
    DecimalDigits(Length(body));
    HeaderLineReads((CONTENT_LENGTH, Decimal(Length(body))));
  }

  lemma HeadersReadBack(command: string, entries: Entries, body: string)
    requires Printable(command, entries, body)
    ensures var head := HeadLines(command, entries, body);
            ReadHeaders(head + [""] + [body + [NULL]], 1, map[]) == Some((Expected(entries, body), |head|))
  {
    hide Split;
    var head := HeadLines(command, entries, body);
    var tail := (if HasContentLength(entries) then [] else [LengthLine(body)]) + ["", body + [NULL]];
    var lines := [command] + HeaderLines(entries) + tail;
    assert head + [""] + [body + [NULL]] == lines;
    assert lines[1..1 + |HeaderLines(entries)|] == HeaderLines(entries);
    HeadersRead(lines, 1, entries, map[]);
    var next := 1 + |HeaderLines(entries)|;
    if !HasContentLength(entries) {
      LengthLineReads(body);
      assert CONTENT_LENGTH[0] != PROTO[0];
      assert lines[next] == LengthLine(body) && lines[next + 1] == "";
    } else {
      assert lines[next] == "";
    }
  }

  lemma PrintableReadsBack(command: string, entries: Entries, body: string)
    requires Printable(command, entries, body)
    ensures Unmarshalled(Marshalled(command, entries, body)) == Frame(command, Expected(entries, body), body)
  {
    hide Split, ReadHeaders, Expected;
    var head := HeadLines(command, entries, body);
    var data := Marshalled(command, entries, body);
    HeaderLinesClean(entries);
    LengthLineReads(body);
    SplitJoin(head, LF);
    SplitWhole(body + [NULL], LF);
    MarshalledSplits(command, entries, body);
    var lines := head + [""] + [body + [NULL]];
    assert Split(data, LF) == lines;
    HeadersReadBack(command, entries, body);
    StripTrims(command);
    assert lines[0] == command && lines[|head| + 1] == body + [NULL];
    assert (body + [NULL])[..|body|] == body;
    assert data[|data| - 1] == NULL;
  }

  // ---- Nothing else comes back unchanged.

  ghost predicate CleanHeaders(headers: Headers)
  {
    forall key | key in headers :: CleanText(key) && key != PROTO
      && (headers[key].Some? ==> CleanText(headers[key].value))
  }

  lemma {:induction false} ReadHeadersClean(lines: seq<string>, i: nat, headers: Headers)
    requires CleanHeaders(headers) && forall line <- lines :: Lacks(line, LF)
    ensures ReadHeaders(lines, i, headers).Some? ==> CleanHeaders(ReadHeaders(lines, i, headers).value.0)
    decreases |lines| - i
  {
    hide Split;
    if i < |lines| && lines[i] != "" {
      var parts := Split(lines[i], ':');
      SplitChars(lines[i], ':', LF);
      assert CleanText(parts[0]) && (|parts| > 1 ==> CleanText(parts[1]));
      ReadHeadersClean(lines, i + 1, WithLine(headers, lines[i]));
    }
  }

  /** What can be read from any text at all. */
  lemma UnmarshalledIsClean(data: string)
    requires Unmarshalled(data).Frame?
    ensures var frame := Unmarshalled(data);
            && Lacks(frame.command, LF) && NoOuterSpace(frame.command) && Lacks(frame.body, LF)
            && CleanHeaders(frame.headers)
  {
    hide Split, ReadHeaders;
    var lines := Split(data, LF);
    assert lines[0] in lines;
    StripTrims(lines[0]);
    ReadHeadersClean(lines, 1, map[]);
    var line := lines[ReadHeaders(lines, 1, map[]).value.1 + 1];
    assert Lacks(line, LF);
    assert forall c <- ReadBody(line) :: c in line;
  }

  /**
   The round trip, with its exact condition. For every command, header object and body: reading the
   marshalled frame never throws, and it gives back the command, the body and the headers (which gain a
   content-length, or lose the one that was supplied) if and only if the frame is printable.
   */
  lemma RoundTrip(command: string, entries: Entries, body: string)
    requires DistinctKeys(entries)
    ensures Unmarshalled(Marshalled(command, entries, body)).Frame?
    ensures Unmarshalled(Marshalled(command, entries, body)) == Frame(command, Expected(entries, body), body)
       <==> Printable(command, entries, body)
  {
    hide Marshalled, Unmarshalled;
    MarshalledIsReadable(command, entries, body);
    if Printable(command, entries, body) {
      PrintableReadsBack(command, entries, body);
    }
    if Unmarshalled(Marshalled(command, entries, body)) == Frame(command, Expected(entries, body), body) {
      UnmarshalledIsClean(Marshalled(command, entries, body));
      forall i | 0 <= i < |entries|
        ensures CleanEntry(entries[i])
      {
        var key := entries[i].0;
        AssignedHolds(map[], entries, key);
        if key != CONTENT_LENGTH {
          assert Lookup(Expected(entries, body), key) == Some(Some(entries[i].1));
          assert key in Expected(entries, body);
        }
      }
    }
  }

  /** The content-length that is printed counts the octets of the body exactly when the body is ASCII. */
  lemma ContentLengthIsOctets(entries: Entries, body: string)
    requires !HasContentLength(entries)
    ensures var printed := Lookup(Expected(entries, body), "content-length");
            && printed.Some? && printed.value.Some?
            && (ParseDecimal(printed.value.value) == Utf8Octets(body) <==> IsAscii(body))
  {
    DecimalRoundTrip(Length(body));
    LengthIsOctetsForAscii(body);
  }
}

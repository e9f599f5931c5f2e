/**
 Responses as a server writes them, and the proof that the reader reads them back: for every
 status line, header list and framing, however the bytes are cut into reads.
 */
module HttpRendering {
  import opened Wrappers
  import opened Bytes
  import opened Text
  import opened ChunkedCoding
  import opened HttpReader
  import opened HttpFraming
  import opened TextLaws

  // ----- Lines -----

  predicate PlainLine(line: bytes) { line != [] && CR !in line }

  /** Every line closed by CRLF. */
  function Block(lines: seq<bytes>): (s: bytes)
    ensures lines != [] ==> |s| >= 2
  {
    if lines == [] then [] else lines[0] + CRLF + Block(lines[1..])
  }

  ghost predicate PlainLines(lines: seq<bytes>) {
    lines != [] && forall i | 0 <= i < |lines| :: PlainLine(lines[i])
  }

  function HeadBytes(lines: seq<bytes>): bytes { Block(lines) + CRLF }

  /** The first blank line is the one that closes the head: none of its lines is empty. */
  lemma {:induction false} BlankLineEndsTheHead(lines: seq<bytes>, body: bytes)
    requires PlainLines(lines)
    ensures Find(HeadBytes(lines) + body, BLANK_LINE) == Some(|Block(lines)| - 2)
    decreases |lines|
  {
    hide Find;
    var more := Block(lines[1..]) + CRLF + body;
    assert HeadBytes(lines) + body == lines[0] + CRLF + more;
    if |lines| == 1 {
      assert Block(lines[1..]) == [];
      assert more == CRLF + body;
      BlankAfterLine(lines[0], body);
    } else {
      assert more == HeadBytes(lines[1..]) + body;
      assert more[0] == lines[1][0];
      BlankLineEndsTheHead(lines[1..], body);
      BlankAfterMore(lines[0], more, |Block(lines[1..])| - 2);
    }
  }

  lemma {:induction false} BlankAfterLine(text: bytes, body: bytes)
    requires forall i | 0 <= i < |text| :: text[i] != CR
    ensures Find(text + CRLF + (CRLF + body), BLANK_LINE) == Some(|text|)
  {
    var b := text + CRLF + (CRLF + body);
    assert b[|text|..|text| + 4] == BLANK_LINE;
    forall j: nat | j < |text|
      ensures !At(b, BLANK_LINE, j)
    {
      assert j + 4 <= |b| ==> b[j..j + 4][0] == text[j];
    }
    FindIs(b, BLANK_LINE, |text|);
  }

  lemma {:induction false} BlankAfterMore(text: bytes, more: bytes, m: nat)
    requires forall i | 0 <= i < |text| :: text[i] != CR
    requires more != [] && more[0] != CR && Find(more, BLANK_LINE) == Some(m)
    ensures Find(text + CRLF + more, BLANK_LINE) == Some(|text| + 2 + m)
  {
    hide Find;
    var b, n := text + CRLF + more, |text| + 2;
    FindPosition(more, BLANK_LINE);
    SliceOfRest(text + CRLF, more, n + m, n + m + 4);
    forall j: nat | j < n + m
      ensures !At(b, BLANK_LINE, j)
    {
      if j + 4 <= |b| {
        if j < |text| {
          assert b[j..j + 4][0] == text[j];
        } else if j < n {
          assert b[j..j + 4][0] == b[j] && b[j..j + 4][2] == b[j + 2];
        } else {
          SliceOfRest(text + CRLF, more, j, j + 4);
          assert !At(more, BLANK_LINE, j - n);
        }
      }
    }
    FindIs(b, BLANK_LINE, n + m);
  }

  lemma {:induction false} FindPosition(hay: bytes, needle: bytes)
    requires needle != [] && Find(hay, needle).Some?
    ensures At(hay, needle, Find(hay, needle).value)
    ensures forall j: nat | j < Find(hay, needle).value :: !At(hay, needle, j)
  {
  }

  lemma {:induction false} LinesOfPlain(line: string)
    requires '\r' !in line
    ensures Lines(line) == [line]
    decreases |line|
  {
    if line != "" {
      LinesOfPlain(line[1..]);
      assert [line[0]] + line[1..] == line;
    }
  }

  lemma {:induction false} LinesCons(line: string, rest: string)
    requires '\r' !in line
    ensures Lines(line + "\r\n" + rest) == [line] + Lines(rest)
    decreases |line|
  {
    var s := line + "\r\n" + rest;
    if line == "" {
      assert s[2..] == rest;
    } else {
      assert s[1..] == line[1..] + "\r\n" + rest;
      LinesCons(line[1..], rest);
      assert [line[0]] + line[1..] == line;
    }
  }

  /** The lines of a block whose lines decode are their texts. */
  lemma {:induction false} LinesOfBlock(lines: seq<bytes>, texts: seq<string>)
    requires PlainLines(lines) && |texts| == |lines|
    requires forall i | 0 <= i < |lines| :: Decode(lines[i]) == Some(texts[i])
    ensures var text := Decode(Block(lines)[..|Block(lines)| - 2]);
            text.Some? && Lines(text.value) == texts
    decreases |lines|
  {
    hide Decode, Lines;
    var text := Block(lines)[..|Block(lines)| - 2];
    NoReturnInText(lines[0]);
    if |lines| == 1 {
      assert Block(lines[1..]) == [];
      assert text == lines[0];
      LinesOfPlain(texts[0]);
      assert texts == [texts[0]];
    } else {
      var more := Block(lines[1..]);
      var rest := more[..|more| - 2];
      assert text == lines[0] + (CRLF + rest);
      LinesOfBlock(lines[1..], texts[1..]);
      DecodeAppend(lines[0], CRLF + rest);
      CrlfDecodes(rest);
      assert texts[0] + ("\r\n" + Decode(rest).value) == texts[0] + "\r\n" + Decode(rest).value;
      LinesCons(texts[0], Decode(rest).value);
      assert texts == [texts[0]] + texts[1..];
    }
  }

  lemma {:induction false} CrlfDecodes(rest: bytes)
    requires Decode(rest).Some?
    ensures Decode(CRLF + rest) == Some("\r\n" + Decode(rest).value)
  {
    hide Decode;
    DecodeOne(LF, rest);
    DecodeOne(CR, [LF] + rest);
    assert CRLF + rest == [CR] + ([LF] + rest);
    assert [13 as char] + ([10 as char] + Decode(rest).value) == "\r\n" + Decode(rest).value;
  }

  // ----- Header fields -----

  /** A header field as it is sent, any white space around its value. */
  datatype Field = Field(header: Header, before: string, after: string, wire: bytes)

  function FieldText(f: Field): string { f.header.name + ":" + (f.before + f.header.value + f.after) }

  predicate FieldSpelled(f: Field) {
    && CR !in f.wire && Decode(f.wire) == Some(FieldText(f))
    && ':' !in f.header.name && Trimmed(f.header.name)
    && Blank(f.before) && Trimmed(f.header.value) && Blank(f.after)
  }

  function Wires(fields: seq<Field>): (lines: seq<bytes>)
    ensures |lines| == |fields| && forall i | 0 <= i < |fields| :: lines[i] == fields[i].wire
  {
    seq(|fields|, i requires 0 <= i < |fields| => fields[i].wire)
  }

  function Texts(fields: seq<Field>): (texts: seq<string>)
    ensures |texts| == |fields| && forall i | 0 <= i < |fields| :: texts[i] == FieldText(fields[i])
  {
    seq(|fields|, i requires 0 <= i < |fields| => FieldText(fields[i]))
  }

  function Headers(fields: seq<Field>): (headers: seq<Header>)
    ensures |headers| == |fields| && forall i | 0 <= i < |fields| :: headers[i] == fields[i].header
  {
    seq(|fields|, i requires 0 <= i < |fields| => fields[i].header)
  }

  lemma {:induction false} HeadersReadBack(fields: seq<Field>)
    requires forall i | 0 <= i < |fields| :: FieldSpelled(fields[i])
    ensures HeadersOf(Texts(fields)) == Headers(fields)
    decreases |fields|
  {
    hide FieldSpelled, Trim, UpTo, FieldText;
    if fields != [] {
      FieldReadsBack(fields[0]);
      assert Texts(fields)[1..] == Texts(fields[1..]);
      HeadersReadBack(fields[1..]);
      assert Headers(fields) == [fields[0].header] + Headers(fields[1..]);
    }
  }

  lemma {:induction false} FieldReadsBack(f: Field)
    requires FieldSpelled(f)
    ensures UpTo(FieldText(f), ':') == f.header.name && |f.header.name| < |FieldText(f)|
    ensures Header(Trim(f.header.name), Trim(FieldText(f)[|f.header.name| + 1..])) == f.header
  {
    hide Trim, UpTo, Decode, Trimmed, Blank;
    var value := f.before + f.header.value + f.after;
    UpToStops(f.header.name, ':', value);
    assert FieldText(f) == f.header.name + [':'] + value;
    assert FieldText(f)[|f.header.name| + 1..] == value;
    TrimLeaves(f.header.name);
    TrimTakes(f.before, f.header.value, f.after);
  }

  // ----- The head -----

  /** Everything up to the entity. */
  function Rendered(statusLine: bytes, fields: seq<Field>): bytes {
    HeadBytes([statusLine] + Wires(fields))
  }

  ghost predicate Sendable(statusLine: bytes, status: nat, fields: seq<Field>) {
    && PlainLine(statusLine) && Decode(statusLine).Some? && StatusOf(Decode(statusLine).value) == Some(status)
    && forall i | 0 <= i < |fields| :: FieldSpelled(fields[i])
  }

  lemma {:induction false} AllPlain(statusLine: bytes, status: nat, fields: seq<Field>)
    requires Sendable(statusLine, status, fields)
    ensures PlainLines([statusLine] + Wires(fields))
  {
    hide Decode, StatusOf;
    var lines := [statusLine] + Wires(fields);
    forall i | 0 <= i < |lines|
      ensures PlainLine(lines[i])
    {
      if i > 0 {
        assert FieldSpelled(fields[i - 1]);
        NothingDecodes();
      }
    }
  }

  /** The head a server wrote is the head the reader sees, whatever follows it. */
  lemma {:induction false} HeadReadsBack(statusLine: bytes, status: nat, fields: seq<Field>, body: bytes)
    requires Sendable(statusLine, status, fields)
    ensures HeadOf(Rendered(statusLine, fields) + body)
            == Ok(Some(Head(status, Headers(fields), |Rendered(statusLine, fields)|)))
  {
    hide StatusOf, Find, HeadersOf, Lines, Decode;
    var lines := [statusLine] + Wires(fields);
    var texts := [Decode(statusLine).value] + Texts(fields);
    var b, end := Rendered(statusLine, fields) + body, |Block(lines)| - 2;
    AllPlain(statusLine, status, fields);
    BlankLineEndsTheHead(lines, body);
    assert b[..end] == Block(lines)[..end];
    forall i | 0 <= i < |lines|
      ensures Decode(lines[i]) == Some(texts[i])
    {
      if i > 0 { assert FieldSpelled(fields[i - 1]); }
    }
    LinesOfBlock(lines, texts);
    assert texts[1..] == Texts(fields);
    HeadersReadBack(fields);
  }

  /** No part of the head is taken for all of it. */
  lemma {:induction false} CutHeadIsNoHead(statusLine: bytes, status: nat, fields: seq<Field>, n: nat)
    requires Sendable(statusLine, status, fields) && n < |Rendered(statusLine, fields)|
    ensures HeadOf(Rendered(statusLine, fields)[..n]) == Ok(None)
  {
    hide Find;
    var lines, head := [statusLine] + Wires(fields), Rendered(statusLine, fields);
    AllPlain(statusLine, status, fields);
    BlankLineEndsTheHead(lines, []);
    assert head + [] == head;
    FindPosition(head, BLANK_LINE);
    forall j: nat
      ensures !At(head[..n], BLANK_LINE, j)
    {
      if j + 4 <= n {
        SliceOfPrefix(head, n, j, j + 4);
        assert !At(head, BLANK_LINE, j);
      }
    }
  }

  predicate Solid(word: string) {
    word != "" && forall i | 0 <= i < |word| :: !IsWhitespace(word[i])
  }

  /** A status line as section 4 of RFC 9112 spells it. */
  lemma {:induction false} StatusLineStatesItsCode(version: string, code: string, reason: string, status: nat)
    requires Solid(version) && Solid(code)
    requires ParseUnsigned(code, 10, 0x1_0000) == Some(status)
    ensures StatusOf(version + " " + code + " " + reason) == Some(status)
  {
    hide ParseUnsigned, Words;
    var line := version + " " + code + " " + reason;
    assert line == version + " " + (code + (" " + reason));
    FirstWord(version, code + (" " + reason));
    assert Words(code + (" " + reason))[0] == code by {
      assert code + (" " + reason) == code + " " + reason;
      FirstWord(code, reason);
    }
  }

  lemma {:induction false} FirstWord(word: string, rest: string)
    requires Solid(word)
    ensures Words(word + " " + rest) == [word] + Words(" " + rest)
    ensures Words(" " + rest) == Words(rest)
  {
    var s := word + " " + rest;
    assert s == word + (" " + rest);
    WordOf(word, " " + rest);
    assert s[0] == word[0];
    assert TrimStart(s) == s;
    assert s[|word|..] == " " + rest;
    assert (" " + rest)[1..] == rest;
    assert TrimStart(" " + rest) == TrimStart(rest);
  }

  lemma {:induction false} WordOf(word: string, rest: string)
    requires forall i | 0 <= i < |word| :: !IsWhitespace(word[i])
    requires rest != "" && IsWhitespace(rest[0])
    ensures Word(word + rest) == word
    decreases |word|
  {
    if word != "" {
      assert (word + rest)[1..] == word[1..] + rest;
      WordOf(word[1..], rest);
    } else {
      assert word + rest == rest;
    }
  }

  /**
   The bytes that carry `entity` after a head with this framing. A chunked entity is any encoding
   of it; one framed by the close is the bytes themselves.
   */
  ghost predicate Carries(framing: Framing, wire: bytes, entity: bytes) {
    match framing
    case Length(n) => wire == entity && |entity| == n
    case UntilClose => wire == entity
    case Chunked => exists chunks, last | WellFormed(chunks) && SizeLine(last, 0) ::
      wire == EncodeChunks(chunks, last) && entity == Entity(chunks)
  }

  /** A response on the wire, and what its framing is. */
  ghost predicate Sent(
    statusLine: bytes, status: nat, fields: seq<Field>, framing: Framing, wire: bytes, entity: bytes)
  {
    && Sendable(statusLine, status, fields)
    && HasFraming(status, Headers(fields), Ok(framing)) && Carries(framing, wire, entity)
  }

  /** An entity that declares its own end is found there, whatever comes after it. */
  lemma {:induction false} EntityReadsBack(
    statusLine: bytes, status: nat, fields: seq<Field>, framing: Framing, wire: bytes, entity: bytes, after: bytes)
    requires Sent(statusLine, status, fields, framing, wire, entity)
    requires framing.UntilClose? ==> after == []
    ensures ResponseAtEof(Rendered(statusLine, fields) + wire + after) == Ok(Response(status, Headers(fields), entity))
    ensures Decided(Rendered(statusLine, fields) + wire + after) <==> !framing.UntilClose?
  {
    hide FramingOf, HasFraming, HeadOf, Dechunk, Sendable, WellFormed, EncodeChunks, Entity, SizeLine, Rendered;
    FramingIs(status, Headers(fields), Ok(framing));
    var head := Rendered(statusLine, fields);
    HeadReadsBack(statusLine, status, fields, wire + after);
    assert head + wire + after == head + (wire + after);
    assert (head + (wire + after))[|head|..] == wire + after;
    match framing {
      case Length(n) => assert (wire + after)[..n] == wire;
      case UntilClose => assert wire + after == wire;
      case Chunked =>
        var chunks, last :| WellFormed(chunks) && SizeLine(last, 0)
                            && wire == EncodeChunks(chunks, last) && entity == Entity(chunks);
        ChunkedRoundTrip(chunks, last, after);
    }
  }

  /** What a server sends is what the caller gets, for every framing and every way of cutting it. */
  lemma {:induction false} EveryResponseIsReadBack(
    statusLine: bytes, status: nat, fields: seq<Field>, framing: Framing, wire: bytes, entity: bytes, after: bytes,
    cuts: seq<bytes>)
    requires Sent(statusLine, status, fields, framing, wire, entity)
    requires framing.UntilClose? ==> after == []
    requires Joined(cuts) == Rendered(statusLine, fields) + wire + after && |Joined(cuts)| <= MAX_RESPONSE
    ensures Outcome(cuts) == Ok(Response(status, Headers(fields), entity))
  {
    hide Sent, Outcome, ResponseAtEof, Rendered, Decided;
    EntityReadsBack(statusLine, status, fields, framing, wire, entity, after);
    WithinTheLimitSplitsDoNotMatter(cuts);
  }

  /**
   A connection that dies in the head, or before the end a response declared, gives an error: it is never
   mistaken for a shorter response.
   */
  lemma {:induction false} TruncationIsNoticed(
    statusLine: bytes, status: nat, fields: seq<Field>, framing: Framing, wire: bytes, entity: bytes, n: nat)
    requires Sent(statusLine, status, fields, framing, wire, entity)
    requires n < |Rendered(statusLine, fields)| + if framing.UntilClose? then 0 else |wire|
    ensures ResponseAtEof((Rendered(statusLine, fields) + wire)[..n]).Err?
    ensures !Decided((Rendered(statusLine, fields) + wire)[..n])
  {
    hide FramingOf, HasFraming, HeadOf, Dechunk, Sendable, WellFormed, EncodeChunks, Entity, SizeLine, Rendered;
    FramingIs(status, Headers(fields), Ok(framing));
    var head := Rendered(statusLine, fields);
    if n < |head| {
      CutHeadIsNoHead(statusLine, status, fields, n);
      assert (head + wire)[..n] == head[..n];
    } else {
      var part := wire[..n - |head|];
      HeadReadsBack(statusLine, status, fields, part);
      assert (head + wire)[..n] == head + part;
      assert (head + part)[|head|..] == part;
      if framing.Chunked? {
        var chunks, last :| WellFormed(chunks) && SizeLine(last, 0)
                            && wire == EncodeChunks(chunks, last) && entity == Entity(chunks);
        ChunkedPrefixIsUndecided(chunks, last, n - |head|);
      }
    }
  }

  /**
   The streams whose cutting matters: a response that declares its own end and reaches it within one read
   of the limit, with bytes after it that cross the limit.
   */
  lemma {:induction false} BytesAfterALongResponseMatter(
    statusLine: bytes, status: nat, fields: seq<Field>, framing: Framing, wire: bytes, entity: bytes, after: bytes)
    requires Sent(statusLine, status, fields, framing, wire, entity) && !framing.UntilClose?
    requires MAX_RESPONSE + 1 - READ_SIZE < |Rendered(statusLine, fields)| + |wire| <= MAX_RESPONSE
    requires |Rendered(statusLine, fields)| + |wire| + |after| > MAX_RESPONSE
    ensures CutsMatter(Rendered(statusLine, fields) + wire + after)
  {
    hide Sent, Decided, Rendered;
    var head, floor := Rendered(statusLine, fields), MAX_RESPONSE + 1 - READ_SIZE;
    var stream := head + wire + after;
    TruncationIsNoticed(statusLine, status, fields, framing, wire, entity, floor);
    assert stream[..floor] == (head + wire)[..floor];
    var more := after[..MAX_RESPONSE - |head + wire|];
    EntityReadsBack(statusLine, status, fields, framing, wire, entity, more);
    assert stream[..MAX_RESPONSE] == head + wire + more;
  }

  // ----- What is refused -----

  /** A head that is not text, or whose status line states no status, is an error as soon as it is there. */
  lemma {:induction false} AnUnreadableHeadIsRefused(lines: seq<bytes>, body: bytes)
    requires PlainLines(lines)
    ensures var text := Decode(Block(lines)[..|Block(lines)| - 2]);
            var buffer := HeadBytes(lines) + body;
            && (text == None ==>
                  CompleteResponse(buffer) == Err(HeadersNotText) && ResponseAtEof(buffer) == Err(HeadersNotText))
            && (text.Some? && StatusOf(Lines(text.value)[0]) == None ==>
                  CompleteResponse(buffer) == Err(StatusLine) && ResponseAtEof(buffer) == Err(StatusLine))
  {
    hide Decode, StatusOf, Lines, HeadersOf, Find;
    BlankLineEndsTheHead(lines, body);
    assert (HeadBytes(lines) + body)[..|Block(lines)| - 2] == Block(lines)[..|Block(lines)| - 2];
  }

  /** Fields that state no framing are an error, whatever follows the head. */
  lemma {:induction false} BadFramingIsRefused(
    statusLine: bytes, status: nat, fields: seq<Field>, error: Malformed, body: bytes)
    requires Sendable(statusLine, status, fields) && HasFraming(status, Headers(fields), Err(error))
    ensures CompleteResponse(Rendered(statusLine, fields) + body) == Err(error)
    ensures ResponseAtEof(Rendered(statusLine, fields) + body) == Err(error)
  {
    hide FramingOf, HasFraming, HeadOf, Sendable, Rendered;
    FramingIs(status, Headers(fields), Err(error));
    HeadReadsBack(statusLine, status, fields, body);
  }

  /** A line without a colon is no field, and hides none. */
  lemma {:induction false} LinesWithoutColonAreSkipped(before: seq<string>, line: string, after: seq<string>)
    requires ':' !in line
    ensures HeadersOf(before + [line] + after) == HeadersOf(before + after)
    decreases |before|
  {
    hide UpTo, Trim;
    if before == [] {
      assert [] + [line] + after == [line] + after && ([line] + after)[1..] == after && [] + after == after;
      UpToStops(line, ':', "");
    } else {
      assert (before + [line] + after)[1..] == before[1..] + [line] + after;
      assert (before + after)[1..] == before[1..] + after;
      LinesWithoutColonAreSkipped(before[1..], line, after);
    }
  }

  // ----- One such stream -----

  const STATUS_LINE := "HTTP/1.1 200 OK"
  const LENGTH_LINE := "Content-Length" + ":" + (" " + "260000" + "")

  function LongField(): Field {
    LongText();
    Field(Header("Content-Length", "260000"), " ", "", Encode(LENGTH_LINE))
  }

  lemma {:induction false} LongNumbers()
    ensures ParseUnsigned("200", 10, 0x1_0000) == Some(200)
    ensures ParseUnsigned("260000", 10, USIZE_LIMIT) == Some(260000)
  {
    assert DigitsFrom("", 10, 200) == Some(200) && DigitsFrom("", 10, 260000) == Some(260000);
    assert "200"[1..] == "00" && "00"[1..] == "0" && "0"[1..] == "";
    assert "260000"[1..] == "60000" && "60000"[1..] == "0000" && "0000"[1..] == "000" && "000"[1..] == "00";
    assert DigitsFrom("0", 10, 20) == Some(200) && DigitsFrom("00", 10, 2) == Some(200);
    assert DigitsFrom("0", 10, 26000) == Some(260000) && DigitsFrom("00", 10, 2600) == Some(260000);
    assert DigitsFrom("000", 10, 260) == Some(260000) && DigitsFrom("0000", 10, 26) == Some(260000);
    assert DigitsFrom("60000", 10, 2) == Some(260000);
  }

  lemma {:induction false} LongFieldIsSpelled()
    ensures FieldSpelled(LongField())
  {
    hide Trimmed, Blank;
    LongText();
    LongWhitespace();
    assert FieldText(LongField()) == LENGTH_LINE;
    AsciiField(LongField());
  }

  lemma {:induction false} LongText()
    ensures Ascii(LENGTH_LINE) && '\r' !in LENGTH_LINE && |LENGTH_LINE| == 22
  {
    var name, value := "Content-Length", "260000";
    assert Ascii(name) && '\r' !in name && Ascii(value) && '\r' !in value;
  }

  lemma {:induction false} AsciiField(f: Field)
    requires Ascii(FieldText(f)) && '\r' !in FieldText(f) && f.wire == Encode(FieldText(f))
    requires ':' !in f.header.name && Trimmed(f.header.name)
    requires Blank(f.before) && Trimmed(f.header.value) && Blank(f.after)
    ensures FieldSpelled(f)
  {
    hide Decode, Trimmed, Blank, FieldText;
    AsciiDecodes(FieldText(f));
    NoReturnEncoded(FieldText(f));
  }

  lemma {:induction false} LongWhitespace()
    ensures Trimmed("Content-Length") && Trimmed("260000") && Blank(" ") && Blank("")
  {
  }

  lemma {:induction false} NoReturnEncoded(s: string)
    requires Ascii(s) && '\r' !in s
    ensures CR !in Encode(s)
  {
    forall i | 0 <= i < |Encode(s)|
      ensures Encode(s)[i] != CR
    {
      assert s[i] in s;
    }
  }

  lemma {:induction false} LongStatus()
    ensures PlainLine(Encode(STATUS_LINE)) && Decode(Encode(STATUS_LINE)) == Some(STATUS_LINE)
    ensures StatusOf(STATUS_LINE) == Some(200)
  {
    hide Decode, StatusOf, ParseUnsigned;
    LongNumbers();
    AsciiDecodes(STATUS_LINE);
    StatusLineStatesItsCode("HTTP/1.1", "200", "OK", 200);
    assert "HTTP/1.1" + " " + "200" + " " + "OK" == STATUS_LINE;
  }

  lemma {:induction false} LongFraming()
    ensures FramingOf(200, [Header("Content-Length", "260000")]) == Ok(Length(260000))
  {
    hide ParseUnsigned, Trim;
    LongNumbers();
    TrimLeaves("260000");
    assert Lower("Transfer-Encoding")[0] == 't' && Lower("Content-Length")[0] == 'c';
  }

  lemma {:induction false} OneField(statusLine: bytes, status: nat, f: Field)
    requires PlainLine(statusLine) && Decode(statusLine).Some? && StatusOf(Decode(statusLine).value) == Some(status)
    requires FieldSpelled(f)
    ensures Sendable(statusLine, status, [f])
    ensures Headers([f]) == [f.header]
    ensures |Rendered(statusLine, [f])| == |statusLine| + |f.wire| + 6
  {
    hide Decode, StatusOf, FieldSpelled, PlainLine;
    var lines := [statusLine] + Wires([f]);
    assert lines == [statusLine, f.wire] && lines[1..] == [f.wire] && lines[1..][1..] == [];
    assert Block(lines[1..]) == f.wire + CRLF + Block([]);
    assert Block(lines) == statusLine + CRLF + Block(lines[1..]);
  }

  lemma {:induction false} LongHeadIsSendable()
    ensures Sendable(Encode(STATUS_LINE), 200, [LongField()])
    ensures FramingOf(200, Headers([LongField()])) == Ok(Length(260000))
    ensures |Rendered(Encode(STATUS_LINE), [LongField()])| == 43
  {
    hide Decode, StatusOf, FramingOf, FieldSpelled, Sendable, Rendered, PlainLine;
    LongFieldIsSpelled();
    LongStatus();
    LongFraming();
    OneField(Encode(STATUS_LINE), 200, LongField());
  }

  lemma {:induction false} AsciiDecodes(s: string)
    requires Ascii(s)
    ensures Decode(Encode(s)) == Some(s)
  {
    hide Decode;
    DecodeAscii(s, []);
    NothingDecodes();
    assert Encode(s) + [] == Encode(s) && s + "" == s;
  }

  /** A response of 260000 bytes with 10000 more behind it: its answer depends on where the reads end. */
  lemma {:induction false} ALongResponseWithMoreBehindIt()
    ensures CutsMatter(Rendered(Encode(STATUS_LINE), [LongField()]) + seq(260000, _ => 0) + seq(10000, _ => 0))
  {
    hide FramingOf, HasFraming, Sendable, Rendered;
    LongHeadIsSendable();
    FramingIs(200, Headers([LongField()]), Ok(Length(260000)));
    BytesAfterALongResponseMatter(Encode(STATUS_LINE), 200, [LongField()], Length(260000),
                                  seq(260000, _ => 0), seq(260000, _ => 0), seq(10000, _ => 0));
  }
}

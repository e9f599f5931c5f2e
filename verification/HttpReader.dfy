/**
 The hand-written HTTP response reader: an incremental parse over a growing buffer, the parse
 made once the device has closed, and the read loop that asks the first until it answers.
 Framing follows section 6.3 of RFC 9112.
 */
module HttpReader {
  import opened Wrappers
  import opened Bytes
  import opened Text
  import opened ChunkedCoding

  /** What the reader holds on to before giving up on a response. */
  const MAX_RESPONSE: nat := 256 * 1024

  /** The most one read of the socket returns. */
  const READ_SIZE: nat := 4096

  datatype Header = Header(name: string, value: string)

  datatype Response = Response(status: nat, headers: seq<Header>, body: bytes)

  datatype Malformed =
    | HeadersNotText
    | StatusLine
    | TransferEncoding
    | ContentLength
    | ChunkedEntity(error: DechunkError)
    | ClosedWithoutAnswer
    | ClosedInHeaders
    | TruncatedEntity
    | UnterminatedChunks
    | MoreThanMax

  datatype Framing = Length(length: nat) | Chunked | UntilClose

  datatype Head = Head(status: nat, headers: seq<Header>, bodyStart: nat)

  /** The first header of this name, whatever its case. */
  function Lookup(headers: seq<Header>, name: string): Option<string> {
    if headers == [] then None
    else if EqIgnoreAsciiCase(headers[0].name, name) then Some(headers[0].value)
    else Lookup(headers[1..], name)
  }

  predicate NamesChunked(encoding: string) {
    exists token | token in Split(encoding, ',') :: EqIgnoreAsciiCase(Trim(token), "chunked")
  }

  function FramingOf(status: nat, headers: seq<Header>): Result<Framing, Malformed> {
    if status == 204 || status == 304 || 100 <= status < 200 then
      Ok(Length(0))
    else
      match Lookup(headers, "Transfer-Encoding")
      case Some(encoding) => if NamesChunked(encoding) then Ok(Chunked) else Err(TransferEncoding)
      case None =>
        match Lookup(headers, "Content-Length")
        case None => Ok(UntilClose)
        case Some(length) =>
          match ParseUnsigned(Trim(length), 10, USIZE_LIMIT)
          case Some(n) => Ok(Length(n))
          case None => Err(ContentLength)
  }

  function StatusOf(line: string): Option<nat> {
    var words := Words(line);
    if |words| < 2 then None else ParseUnsigned(words[1], 10, 0x1_0000)
  }

  /** A line without a colon is skipped. */
  function HeadersOf(lines: seq<string>): seq<Header> {
    if lines == [] then []
    else
      var name := UpTo(lines[0], ':');
      if |name| == |lines[0]| then HeadersOf(lines[1..])
      else [Header(Trim(name), Trim(lines[0][|name| + 1..]))] + HeadersOf(lines[1..])
  }

  /** Status line and headers, from the bytes before the blank line. */
  function ParseHead(text: bytes): Result<(nat, seq<Header>), Malformed> {
    match Decode(text)
    case None => Err(HeadersNotText)
    case Some(s) =>
      var lines := Lines(s);
      match StatusOf(lines[0])
      case None => Err(StatusLine)
      case Some(status) => Ok((status, HeadersOf(lines[1..])))
  }

  function HeadOf(buffer: bytes): (r: Result<Option<Head>, Malformed>)
    ensures r.Ok? && r.value.Some? ==> r.value.value.bodyStart <= |buffer|
  {
    match Find(buffer, BLANK_LINE)
    case None => Ok(None)
    case Some(end) =>
      match ParseHead(buffer[..end])
      case Err(e) => Err(e)
      case Ok((status, headers)) => Ok(Some(Head(status, headers, end + 4)))
  }

  /** The response if the buffer already holds all of it, `None` while it does not. */
  function CompleteResponse(buffer: bytes): Result<Option<Response>, Malformed> {
    match HeadOf(buffer)
    case Err(e) => Err(e)
    case Ok(None) => Ok(None)
    case Ok(Some(head)) =>
      var body := buffer[head.bodyStart..];
      match FramingOf(head.status, head.headers)
      case Err(e) => Err(e)
      case Ok(Length(n)) =>
        if |body| < n then Ok(None) else Ok(Some(Response(head.status, head.headers, body[..n])))
      case Ok(UntilClose) => Ok(None)
      case Ok(Chunked) =>
        match Dechunk(body)
        case Err(e) => Err(ChunkedEntity(e))
        case Ok(None) => Ok(None)
        case Ok(Some(entity)) => Ok(Some(Response(head.status, head.headers, entity)))
  }

  /** What closing the connection makes of the bytes received. */
  function ResponseAtEof(buffer: bytes): Result<Response, Malformed> {
    match HeadOf(buffer)
    case Err(e) => Err(e)
    case Ok(None) => Err(if buffer == [] then ClosedWithoutAnswer else ClosedInHeaders)
    case Ok(Some(head)) =>
      var body := buffer[head.bodyStart..];
      match FramingOf(head.status, head.headers)
      case Err(e) => Err(e)
      case Ok(Length(n)) =>
        if |body| < n then Err(TruncatedEntity) else Ok(Response(head.status, head.headers, body[..n]))
      case Ok(UntilClose) => Ok(Response(head.status, head.headers, body))
      case Ok(Chunked) =>
        match Dechunk(body)
        case Err(e) => Err(ChunkedEntity(e))
        case Ok(None) => Err(UnterminatedChunks)
        case Ok(Some(entity)) => Ok(Response(head.status, head.headers, entity))
  }

  /** The incremental parse has made up its mind. */
  predicate Decided(buffer: bytes) { CompleteResponse(buffer) != Ok(None) }

  /** A decision is never revised by bytes that arrive after it. */
  lemma {:induction false} DecisionIsStable(buffer: bytes, ext: bytes)
    requires Decided(buffer)
    ensures CompleteResponse(buffer + ext) == CompleteResponse(buffer)
  {
    hide ParseHead, FramingOf, Dechunk;
    FindExtends(buffer, ext, BLANK_LINE);
    var end := Find(buffer, BLANK_LINE).value;
    assert (buffer + ext)[..end] == buffer[..end];
    assert (buffer + ext)[end + 4..] == buffer[end + 4..] + ext;
    var parsed := ParseHead(buffer[..end]);
    if parsed.Ok? {
      var framing := FramingOf(parsed.value.0, parsed.value.1);
      if framing.Ok? && framing.value.Chunked? {
        DechunkExtends(buffer[end + 4..], ext);
      } else if framing.Ok? && framing.value.Length? {
        assert (buffer[end + 4..] + ext)[..framing.value.length] == buffer[end + 4..][..framing.value.length];
      }
    }
  }

  /** Where the incremental parse has decided, closing the connection changes nothing. */
  lemma {:induction false} DecisionIsTheAnswerAtEof(buffer: bytes)
    requires Decided(buffer)
    ensures CompleteResponse(buffer).Err? ==> ResponseAtEof(buffer) == Err(CompleteResponse(buffer).error)
    ensures CompleteResponse(buffer).Ok? ==> ResponseAtEof(buffer) == Ok(CompleteResponse(buffer).value.value)
  {
    hide HeadOf, FramingOf, Dechunk;
  }

  /** A parse never blames the size limit: only the read loop does. */
  lemma {:induction false} OnlyTheLoopReportsMoreThanMax(buffer: bytes)
    ensures CompleteResponse(buffer) != Err(MoreThanMax)
    ensures ResponseAtEof(buffer) != Err(MoreThanMax)
  {
    hide Decode, Lines, StatusOf, HeadersOf, Dechunk, Find, Lookup, NamesChunked, ParseUnsigned, Trim;
  }

  /** What a connection delivers before the close: the bytes of each read, none of them empty. */
  ghost predicate Reads(cuts: seq<bytes>) {
    forall i | 0 <= i < |cuts| :: 0 < |cuts[i]| <= READ_SIZE
  }

  function Joined(cuts: seq<bytes>): bytes {
    if cuts == [] then [] else cuts[0] + Joined(cuts[1..])
  }

  lemma {:induction false} JoinedSnoc(cuts: seq<bytes>, k: nat)
    requires k < |cuts|
    ensures Joined(cuts[..k + 1]) == Joined(cuts[..k]) + cuts[k]
  {
    if k == 0 {
      assert cuts[..1][1..] == [] && Joined(cuts[..1][1..]) == [];
      assert cuts[..0] == [];
    } else {
      assert cuts[..k + 1][1..] == cuts[1..][..k] && cuts[..k][1..] == cuts[1..][..k - 1];
      JoinedSnoc(cuts[1..], k - 1);
    }
  }

  lemma {:induction false} JoinedAppend(a: seq<bytes>, b: seq<bytes>)
    ensures Joined(a + b) == Joined(a) + Joined(b)
  {
    if a == [] {
      assert a + b == b;
    } else {
      assert (a + b)[1..] == a[1..] + b;
      JoinedAppend(a[1..], b);
    }
  }

  /** How many whole reads fit under the limit. */
  function ReadsKept(cuts: seq<bytes>, held: nat): (k: nat)
    ensures k <= |cuts|
    ensures held + |Joined(cuts)| <= MAX_RESPONSE ==> k == |cuts|
    ensures k < |cuts| ==> held + |Joined(cuts[..k])| + |cuts[k]| > MAX_RESPONSE
    ensures held <= MAX_RESPONSE ==> held + |Joined(cuts[..k])| <= MAX_RESPONSE
  {
    if cuts == [] || held + |cuts[0]| > MAX_RESPONSE then
      0
    else
      var k := ReadsKept(cuts[1..], held + |cuts[0]|);
      assert cuts[..k + 1][1..] == cuts[1..][..k];
      k + 1
  }

  function FromDecision(r: Result<Option<Response>, Malformed>): Result<Response, Malformed>
    requires r != Ok(None)
  {
    match r
    case Ok(Some(response)) => Ok(response)
    case Err(e) => Err(e)
  }

  /** What the loop answers, in terms of the stream and of where its reads end. */
  function Outcome(cuts: seq<bytes>): Result<Response, Malformed> {
    var kept := ReadsKept(cuts, 0);
    var buffer := Joined(cuts[..kept]);
    if kept == |cuts| then ResponseAtEof(buffer)
    else if Decided(buffer) then FromDecision(CompleteResponse(buffer))
    else Err(MoreThanMax)
  }

  /** The read loop, from the first read to the close. */
  method RoundTrip(cuts: seq<bytes>) returns (r: Result<Response, Malformed>)
    requires Reads(cuts)
    ensures r == Outcome(cuts)
  {
    hide CompleteResponse, ResponseAtEof;
    var buffer: bytes := [];
    var i := 0;
    ghost var kept := ReadsKept(cuts, 0);
    assert cuts[..0] == [];
    while true
      invariant 0 <= i <= kept
      invariant buffer == Joined(cuts[..i]) && |buffer| <= MAX_RESPONSE
      decreases |cuts| - i
    {
      var complete := CompleteResponse(buffer);
      if complete != Ok(None) {
        DecidedEarlier(cuts, i);
        return FromDecision(complete);
      }
      if i == |cuts| {
        return ResponseAtEof(buffer);
      }
      JoinedSnoc(cuts, i);
      if |buffer| + |cuts[i]| > MAX_RESPONSE {
        KeptIsMaximal(cuts, i);
        return Err(MoreThanMax);
      }
      KeptReaches(cuts, i);
      buffer := buffer + cuts[i];
      i := i + 1;
    }
  }

  lemma {:induction false} JoinedGrows(cuts: seq<bytes>, i: nat, j: nat)
    requires i <= j <= |cuts|
    ensures Joined(cuts[..i]) <= Joined(cuts[..j])
  {
    assert cuts[..j] == cuts[..i] + cuts[i..j];
    JoinedAppend(cuts[..i], cuts[i..j]);
  }

  lemma {:induction false} KeptIsMaximal(cuts: seq<bytes>, i: nat)
    requires i <= ReadsKept(cuts, 0) && i < |cuts|
    requires |Joined(cuts[..i])| + |cuts[i]| > MAX_RESPONSE
    ensures ReadsKept(cuts, 0) == i
  {
    var kept := ReadsKept(cuts, 0);
    if i < kept {
      JoinedSnoc(cuts, i);
      JoinedGrows(cuts, i + 1, kept);
    }
  }

  lemma {:induction false} KeptReaches(cuts: seq<bytes>, i: nat)
    requires i <= ReadsKept(cuts, 0) && i < |cuts|
    requires |Joined(cuts[..i])| + |cuts[i]| <= MAX_RESPONSE
    ensures i < ReadsKept(cuts, 0)
  {
  }

  lemma {:induction false} DecidedEarlier(cuts: seq<bytes>, i: nat)
    requires i <= ReadsKept(cuts, 0) && Decided(Joined(cuts[..i]))
    ensures Outcome(cuts) == FromDecision(CompleteResponse(Joined(cuts[..i])))
  {
    hide CompleteResponse, ResponseAtEof;
    var kept := ReadsKept(cuts, 0);
    JoinedGrows(cuts, i, kept);
    var early, late := Joined(cuts[..i]), Joined(cuts[..kept]);
    assert late == early + late[|early|..];
    DecisionIsStable(early, late[|early|..]);
    DecisionIsTheAnswerAtEof(late);
  }

  /** For a stream within the limit, the answer is the one-shot parse of the whole stream. */
  lemma {:induction false} WithinTheLimitSplitsDoNotMatter(cuts: seq<bytes>)
    requires |Joined(cuts)| <= MAX_RESPONSE
    ensures Outcome(cuts) == ResponseAtEof(Joined(cuts))
  {
    assert cuts[..|cuts|] == cuts;
  }

  /**
   Past the limit the read that would cross it is discarded whole. The answer depends on how the
   stream was cut exactly when the response became complete inside the last read's reach.
   */
  predicate CutsMatter(stream: bytes) {
    && |stream| > MAX_RESPONSE
    && Decided(stream[..MAX_RESPONSE])
    && !Decided(stream[..MAX_RESPONSE + 1 - READ_SIZE])
  }

  lemma {:induction false} OutcomePastTheLimit(cuts: seq<bytes>)
    requires Reads(cuts) && |Joined(cuts)| > MAX_RESPONSE
    ensures ReadsKept(cuts, 0) < |cuts|
    ensures Decided(Joined(cuts)[..MAX_RESPONSE + 1 - READ_SIZE])
            ==> Outcome(cuts) == FromDecision(CompleteResponse(Joined(cuts)[..MAX_RESPONSE + 1 - READ_SIZE]))
    ensures !Decided(Joined(cuts)[..MAX_RESPONSE]) ==> Outcome(cuts) == Err(MoreThanMax)
  {
    hide CompleteResponse, ResponseAtEof;
    var stream, kept := Joined(cuts), ReadsKept(cuts, 0);
    assert cuts[..|cuts|] == cuts;
    JoinedGrows(cuts, kept, |cuts|);
    var buffer := Joined(cuts[..kept]);
    assert buffer == stream[..|buffer|];
    assert |buffer| >= MAX_RESPONSE + 1 - READ_SIZE;
    var floor := stream[..MAX_RESPONSE + 1 - READ_SIZE];
    if Decided(floor) {
      assert buffer == floor + buffer[|floor|..];
      DecisionIsStable(floor, buffer[|floor|..]);
    }
    if Decided(buffer) {
      assert stream[..MAX_RESPONSE] == buffer + stream[|buffer|..MAX_RESPONSE];
      DecisionIsStable(buffer, stream[|buffer|..MAX_RESPONSE]);
    }
  }

  /** Reads of one byte each. */
  function Bytewise(stream: bytes): (cuts: seq<bytes>)
    ensures Reads(cuts) && Joined(cuts) == stream
  {
    if stream == [] then [] else [stream[..1]] + Bytewise(stream[1..])
  }

  lemma {:induction false} OutcomeAtBoundary(before: seq<bytes>, last: bytes, after: seq<bytes>)
    requires Reads(before + [last] + after)
    requires |Joined(before)| <= MAX_RESPONSE < |Joined(before)| + |last|
    ensures Joined(before + [last] + after) == Joined(before) + last + Joined(after)
    ensures Decided(Joined(before))
            ==> Outcome(before + [last] + after) == FromDecision(CompleteResponse(Joined(before)))
    ensures !Decided(Joined(before)) ==> Outcome(before + [last] + after) == Err(MoreThanMax)
  {
    hide CompleteResponse, ResponseAtEof;
    var cuts := before + [last] + after;
    JoinedAppend(before + [last], after);
    JoinedAppend(before, [last]);
    assert Joined([last]) == last + [] == last;
    var kept := ReadsKept(cuts, 0);
    assert cuts[..|before|] == before && cuts[|before|] == last;
    assert cuts[..|before| + 1] == before + [last];
    if kept < |before| {
      JoinedSnoc(cuts, kept);
      JoinedGrows(cuts, kept + 1, |before|);
    } else if kept > |before| {
      JoinedGrows(cuts, |before| + 1, kept);
    }
  }

  /** Two ways of cutting one stream that are answered differently. */
  lemma {:induction false} DisagreeingCuts(stream: bytes) returns (early: seq<bytes>, late: seq<bytes>)
    requires CutsMatter(stream)
    ensures Reads(early) && Reads(late) && Joined(early) == stream && Joined(late) == stream
    ensures Outcome(early) == Err(MoreThanMax) != Outcome(late)
  {
    hide CompleteResponse, ResponseAtEof, Bytewise;
    var floor := MAX_RESPONSE + 1 - READ_SIZE;
    var rest := Bytewise(stream[MAX_RESPONSE + 1..]);
    early := Bytewise(stream[..floor]) + [stream[floor..MAX_RESPONSE + 1]] + rest;
    late := Bytewise(stream[..MAX_RESPONSE]) + [stream[MAX_RESPONSE..MAX_RESPONSE + 1]] + rest;
    OutcomeAtBoundary(Bytewise(stream[..floor]), stream[floor..MAX_RESPONSE + 1], rest);
    OutcomeAtBoundary(Bytewise(stream[..MAX_RESPONSE]), stream[MAX_RESPONSE..MAX_RESPONSE + 1], rest);
    assert stream == stream[..floor] + stream[floor..MAX_RESPONSE + 1] + stream[MAX_RESPONSE + 1..];
    assert stream == stream[..MAX_RESPONSE] + stream[MAX_RESPONSE..MAX_RESPONSE + 1] + stream[MAX_RESPONSE + 1..];
    OnlyTheLoopReportsMoreThanMax(stream[..MAX_RESPONSE]);
  }

  /** Segmentation independence, and the whole family of streams where it fails. */
  lemma {:induction false} SegmentationIndependence(stream: bytes)
    ensures (forall a, b ::
               Reads(a) && Reads(b) && Joined(a) == stream && Joined(b) == stream ==> Outcome(a) == Outcome(b))
            <==> !CutsMatter(stream)
  {
    hide CompleteResponse, ResponseAtEof, ReadsKept, Outcome;
    if CutsMatter(stream) {
      var early, late := DisagreeingCuts(stream);
    } else {
      forall a, b | Reads(a) && Reads(b) && Joined(a) == stream && Joined(b) == stream
        ensures Outcome(a) == Outcome(b)
      {
        if |stream| <= MAX_RESPONSE {
          WithinTheLimitSplitsDoNotMatter(a);
          WithinTheLimitSplitsDoNotMatter(b);
        } else {
          OutcomePastTheLimit(a);
          OutcomePastTheLimit(b);
        }
      }
    }
  }
}

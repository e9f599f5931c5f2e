/**
 The pages of one upload: a page frame, an acknowledgement, the next header, until the last page. Control
 messages are JSON text; what a text says is the `parse` every member takes.
 */
module PageLoop {
  import opened Wrappers
  import opened Bytes
  import opened Frames

  const PROTOCOL_VERSION: nat := 1
  const MAX_PAGES_PER_JOB: nat := 200
  const RESOLUTION_DPI: nat := 300

  type Profile = nat

  datatype Upload = Upload(
    v: nat, device: string, token: string, profile: Profile, page: nat, of: nat, format: string)

  datatype Message =
    | PairRequestMessage(v: nat)
    | PairResponseMessage
    | UploadMessage(upload: Upload)
    | AckMessage

  type Parser = bytes -> Result<Message, ProtocolError>

  datatype PageFormat = Pnm | Jpeg | Png | Tiff

  function ParseFormat(name: string): Option<PageFormat> {
    match name
    case "pnm" => Some(Pnm)
    case "jpeg" => Some(Jpeg)
    case "png" => Some(Png)
    case "tiff" => Some(Tiff)
    case _ => None
  }

  /** The four formats, each by its name. */
  lemma {:induction false} FormatIs(name: string, format: PageFormat)
    ensures ParseFormat(name) == Some(format) <==>
              || (name == "pnm" && format.Pnm?) || (name == "jpeg" && format.Jpeg?)
              || (name == "png" && format.Png?) || (name == "tiff" && format.Tiff?)
  {
  }

  predicate ValidBounds(u: Upload) { 1 <= u.page <= u.of <= MAX_PAGES_PER_JOB }

  /** The checks in the order the source makes them. */
  function ReadHeader(parse: Parser, s: bytes): (r: Result<(Upload, bytes), ProtocolError>)
    ensures r.Ok? ==> ValidBounds(r.value.0) && |r.value.1| < |s|
  {
    match ReadFrame(s, CONTROL_MAX_BYTES)
    case Err(e) => Err(e)
    case Ok((payload, rest)) =>
      match parse(payload)
      case Err(e) => Err(e)
      case Ok(PairRequestMessage(v)) =>
        if v != PROTOCOL_VERSION then Err(UnsupportedVersion(v)) else Err(Malformed)
      case Ok(UploadMessage(u)) =>
        if u.v != PROTOCOL_VERSION then Err(UnsupportedVersion(u.v))
        else if !ValidBounds(u) then Err(Malformed)
        else Ok((u, rest))
      case Ok(_) => Err(Malformed)
  }

  datatype RawPage = RawPage(index: nat, format: PageFormat, dpi: nat, data: bytes)

  // ----- The loop as one function of the bytes -----

  /** Pages passed on, acknowledgements sent, and the bytes left after a complete upload. */
  datatype Streamed = Streamed(pages: seq<RawPage>, acks: nat, end: Result<bytes, ProtocolError>)

  function Less(n: Option<nat>): Option<nat> {
    match n case Some(k) => Some(if k == 0 then 0 else k - 1) case None => None
  }

  /** `None` is without end. */
  predicate Allows(n: Option<nat>, k: nat) { n.Some? ==> n.value >= k }

  /** Whether a header may follow another within one upload. */
  function Follow(current: Upload, next: Upload): Result<(), ProtocolError> {
    if next.device != current.device || next.token != current.token then Err(Unauthorized)
    else if next.profile != current.profile then Err(Malformed)
    else if next.of != current.of || next.page != current.page + 1 then Err(Malformed)
    else Ok(())
  }

  /**
   `takes` is how many pages are accepted before the fetched stream is dropped, `hears` how many
   acknowledgements go out before the connection breaks.
   */
  function Stream(parse: Parser, current: Upload, s: bytes, takes: Option<nat>, hears: Option<nat>): Streamed
    requires ValidBounds(current)
    decreases |s|
  {
    match ParseFormat(current.format)
    case None => Streamed([], 0, Err(Malformed))
    case Some(format) =>
      match ReadFrame(s, PAGE_MAX_BYTES)
      case Err(e) => Streamed([], 0, Err(e))
      case Ok((data, left)) =>
        var page := RawPage(current.page - 1, format, RESOLUTION_DPI, data);
        if takes == Some(0) then Streamed([], 0, Err(Malformed))
        else if hears == Some(0) then Streamed([page], 0, Err(Malformed))
        else if current.page == current.of then Streamed([page], 1, Ok(left))
        else
          match ReadHeader(parse, left)
          case Err(e) => Streamed([page], 1, Err(e))
          case Ok((next, left)) =>
            if Follow(current, next).Err? then Streamed([page], 1, Err(Follow(current, next).error))
            else
              var more := Stream(parse, next, left, Less(takes), Less(hears));
              Streamed([page] + more.pages, 1 + more.acks, more.end)
  }

  // ----- The loop as it runs -----

  /** What an upload task holds: the phone's connection, and the channel to whoever fetched. */
  class Task {
    const socket: Socket
    var pages: seq<RawPage>
    var acks: nat
    var takes: Option<nat>
    var hears: Option<nat>

    constructor (socket: Socket, takes: Option<nat>, hears: Option<nat>)
      ensures this.socket == socket && this.takes == takes && this.hears == hears
      ensures pages == [] && acks == 0
    {
      this.socket, this.takes, this.hears := socket, takes, hears;
      pages, acks := [], 0;
    }

    /** The receiver may be gone. */
    method Send(page: RawPage) returns (ok: bool)
      modifies this`pages, this`takes
      ensures ok == (old(takes) != Some(0))
      ensures pages == if ok then old(pages) + [page] else old(pages)
      ensures ok ==> takes == Less(old(takes))
    {
      ok := takes != Some(0);
      if ok {
        pages, takes := pages + [page], Less(takes);
      }
    }

    method SendOkAck() returns (ok: bool)
      modifies this`acks, this`hears
      ensures ok == (old(hears) != Some(0))
      ensures acks == old(acks) + if ok then 1 else 0
      ensures ok ==> hears == Less(old(hears))
    {
      ok := hears != Some(0);
      if ok {
        acks, hears := acks + 1, Less(hears);
      }
    }

    method ReadUploadHeader(parse: Parser) returns (r: Result<Upload, ProtocolError>)
      modifies socket
      ensures match ReadHeader(parse, old(socket.incoming))
              case Ok((u, rest)) => r == Ok(u) && socket.incoming == rest
              case Err(e) => r == Err(e)
    {
      var frame := socket.ReadFrom(CONTROL_MAX_BYTES);
      if frame.Err? {
        return Err(frame.error);
      }
      var message := parse(frame.value);
      if message.Err? {
        return Err(message.error);
      }
      match message.value {
        case PairRequestMessage(v) =>
          return Err(if v != PROTOCOL_VERSION then UnsupportedVersion(v) else Malformed);
        case UploadMessage(u) =>
          if u.v != PROTOCOL_VERSION {
            return Err(UnsupportedVersion(u.v));
          }
          return if ValidBounds(u) then Ok(u) else Err(Malformed);
        case _ => return Err(Malformed);
      }
    }

    method StreamUploadPages(parse: Parser, first: Upload) returns (r: Result<(), ProtocolError>)
      requires ValidBounds(first)
      modifies this, socket
      ensures var out := Stream(parse, first, old(socket.incoming), old(takes), old(hears));
              && pages == old(pages) + out.pages && acks == old(acks) + out.acks
              && match out.end
                 case Ok(rest) => r == Ok(()) && socket.incoming == rest
                 case Err(e) => r == Err(e)
    {
      hide ReadFrame, ReadHeader, ParseFormat, Follow, Stream;
      var current := first;
      ghost var whole := Stream(parse, first, socket.incoming, takes, hears);
      ghost var toCome := whole;
      while true
        invariant ValidBounds(current)
        invariant toCome == Stream(parse, current, socket.incoming, takes, hears)
        invariant pages + toCome.pages == old(pages) + whole.pages
        invariant acks + toCome.acks == old(acks) + whole.acks
        invariant toCome.end == whole.end
        decreases current.of - current.page
      {
        OneRound(parse, current, socket.incoming, takes, hears);
        var format := ParseFormat(current.format);
        if format.None? {
          return Err(Malformed);
        }
        var data := socket.ReadFrom(PAGE_MAX_BYTES);
        if data.Err? {
          return Err(data.error);
        }
        var page := RawPage(current.page - 1, format.value, RESOLUTION_DPI, data.value);
        var sent := Send(page);
        if !sent {
          return Err(Malformed);
        }
        var heard := SendOkAck();
        if !heard {
          return Err(Malformed);
        }
        if current.page == current.of {
          return Ok(());
        }
        var next := ReadUploadHeader(parse);
        if next.Err? {
          return Err(next.error);
        }
        var ok := Follow(current, next.value);
        if ok.Err? {
          return Err(ok.error);
        }
        FollowedIsNext(current, next.value);
        toCome := Stream(parse, next.value, socket.incoming, takes, hears);
        current := next.value;
      }
    }
  }

  /** One turn of the loop: how the run ends here, or the page it adds before the next header. */
  lemma {:induction false} OneRound(parse: Parser, current: Upload, s: bytes, takes: Option<nat>, hears: Option<nat>)
    requires ValidBounds(current)
    ensures var out := Stream(parse, current, s, takes, hears);
            var format, frame := ParseFormat(current.format), ReadFrame(s, PAGE_MAX_BYTES);
            if format.None? then out == Streamed([], 0, Err(Malformed))
            else if frame.Err? then out == Streamed([], 0, Err(frame.error))
            else
              var page := RawPage(current.page - 1, format.value, RESOLUTION_DPI, frame.value.0);
              var header := ReadHeader(parse, frame.value.1);
              if takes == Some(0) then out == Streamed([], 0, Err(Malformed))
              else if hears == Some(0) then out == Streamed([page], 0, Err(Malformed))
              else if current.page == current.of then out == Streamed([page], 1, Ok(frame.value.1))
              else if header.Err? then out == Streamed([page], 1, Err(header.error))
              else
                var follow := Follow(current, header.value.0);
                if follow.Err? then out == Streamed([page], 1, Err(follow.error))
                else
                  var more := Stream(parse, header.value.0, header.value.1, Less(takes), Less(hears));
                  && out.pages == [page] + more.pages && out.acks == 1 + more.acks && out.end == more.end
  {
    hide ReadFrame, ReadHeader, ParseFormat, Follow;
  }

  lemma {:induction false} FollowedIsNext(current: Upload, next: Upload)
    ensures Follow(current, next).Ok? <==>
            && next.device == current.device && next.token == current.token
            && next.profile == current.profile && next.of == current.of && next.page == current.page + 1
  {
  }

  /** Another device or token ends an upload as unauthorized; any other break in it as malformed. */
  lemma {:induction false} WhatBreaksAnUpload(current: Upload, next: Upload)
    ensures Follow(current, next) == Err(Unauthorized) <==> next.device != current.device || next.token != current.token
    ensures Follow(current, next).Err? ==> Follow(current, next).error in {Unauthorized, Malformed}
  {
  }

  /**
   What a framed control message is refused for: a version before anything else, then being no upload, then
   its bounds.
   */
  lemma {:induction false} WhatAHeaderIsRefusedFor(parse: Parser, header: bytes, rest: bytes)
    requires 0 < |header| <= 65536
    ensures var r := ReadHeader(parse, Frame(header) + rest);
            && (parse(header).Err? ==> r == Err(parse(header).error))
            && (forall v | parse(header) == Ok(PairRequestMessage(v)) ::
                  r == Err(if v == 1 then Malformed else UnsupportedVersion(v)))
            && (parse(header) == Ok(PairResponseMessage) || parse(header) == Ok(AckMessage) ==> r == Err(Malformed))
            && (forall u | parse(header) == Ok(UploadMessage(u)) ::
                  r == if u.v != 1 then Err(UnsupportedVersion(u.v))
                       else if u.page == 0 || u.of == 0 || u.page > u.of || u.of > 200 then Err(Malformed)
                       else Ok((u, rest)))
  {
    hide ReadFrame, Frame;
    FrameReadsBack(Frame(header) + rest, CONTROL_MAX_BYTES, header, rest);
  }

  // ----- What a phone sends -----

  /** A later page of an upload: its header, as JSON text, and its data. */
  datatype Round = Round(header: bytes, data: bytes)

  predicate NextOf(current: Upload, next: Upload) {
    next == current.(page := current.page + 1, format := next.format, v := PROTOCOL_VERSION) && next.page <= next.of
  }

  /** One upload from `first` on: each header the one before with the page counted up. */
  ghost predicate Sends(parse: Parser, first: Upload, data: bytes, more: seq<Round>)
    decreases |more|
  {
    && ValidBounds(first) && ParseFormat(first.format).Some? && 0 < |data| <= 67_108_864
    && (more != [] ==>
          && 0 < |more[0].header| <= 65_536
          && parse(more[0].header).Ok? && parse(more[0].header).value.UploadMessage?
          && NextOf(first, parse(more[0].header).value.upload)
          && Sends(parse, parse(more[0].header).value.upload, more[0].data, more[1..]))
  }

  function Wire(data: bytes, more: seq<Round>): bytes
    requires |data| < U32_LIMIT && forall m | m in more :: |m.header| < U32_LIMIT && |m.data| < U32_LIMIT
    decreases |more|
  {
    Frame(data) + if more == [] then [] else Frame(more[0].header) + Wire(more[0].data, more[1..])
  }

  ghost function PagesOf(parse: Parser, first: Upload, data: bytes, more: seq<Round>): seq<RawPage>
    requires Sends(parse, first, data, more)
    decreases |more|
  {
    [RawPage(first.page - 1, ParseFormat(first.format).value, RESOLUTION_DPI, data)]
    + if more == [] then [] else PagesOf(parse, parse(more[0].header).value.upload, more[0].data, more[1..])
  }

  lemma {:induction false} SendsSizes(parse: Parser, first: Upload, data: bytes, more: seq<Round>)
    requires Sends(parse, first, data, more)
    ensures |data| < U32_LIMIT && forall m | m in more :: |m.header| < U32_LIMIT && |m.data| < U32_LIMIT
    decreases |more|
  {
    if more != [] {
      SendsSizes(parse, parse(more[0].header).value.upload, more[0].data, more[1..]);
      assert more == [more[0]] + more[1..];
    }
  }

  /** Every header of an upload speaks for the same device, token, profile and page count. */
  lemma {:induction false} OneUploadThroughout(parse: Parser, first: Upload, data: bytes, more: seq<Round>, i: nat)
    requires Sends(parse, first, data, more) && i < |more|
    ensures parse(more[i].header).Ok? && parse(more[i].header).value.UploadMessage?
    ensures var u := parse(more[i].header).value.upload;
            && u.device == first.device && u.token == first.token && u.profile == first.profile
            && u.of == first.of && u.page == first.page + 1 + i <= first.of
            && ParseFormat(u.format).Some?
            && |PagesOf(parse, first, data, more)| == |more| + 1
            && PagesOf(parse, first, data, more)[i + 1]
               == RawPage(first.page + i, ParseFormat(u.format).value, RESOLUTION_DPI, more[i].data)
    decreases |more|
  {
    hide ParseFormat;
    var next := parse(more[0].header).value.upload;
    assert PagesOf(parse, first, data, more)[1..] == PagesOf(parse, next, more[0].data, more[1..]);
    if i > 0 {
      OneUploadThroughout(parse, next, more[0].data, more[1..], i - 1);
      assert more[1..][i - 1] == more[i];
    } else {
      PageCount(parse, next, more[0].data, more[1..]);
    }
  }

  lemma {:induction false} PageCount(parse: Parser, first: Upload, data: bytes, more: seq<Round>)
    requires Sends(parse, first, data, more)
    ensures |PagesOf(parse, first, data, more)| == |more| + 1 <= first.of - first.page + 1
    decreases |more|
  {
    hide ParseFormat;
    if more != [] {
      PageCount(parse, parse(more[0].header).value.upload, more[0].data, more[1..]);
    }
  }

  // ----- What every run does -----

  /** Counts that hold however the run ends: at most one page is passed on and not acknowledged. */
  lemma {:induction false} EveryRunCounts(
    parse: Parser, first: Upload, s: bytes, takes: Option<nat>, hears: Option<nat>)
    requires ValidBounds(first)
    ensures var out := Stream(parse, first, s, takes, hears);
            && out.acks <= |out.pages| <= out.acks + 1
            && |out.pages| <= first.of - first.page + 1 <= MAX_PAGES_PER_JOB
            && (out.end.Ok? <==> out.acks == first.of - first.page + 1)
            && (forall i | 0 <= i < |out.pages| :: out.pages[i].index == first.page - 1 + i && out.pages[i].dpi == 300)
    decreases |s|
  {
    hide ReadFrame, ReadHeader, ParseFormat;
    var out := Stream(parse, first, s, takes, hears);
    if out.acks > 0 && first.page < first.of {
      var left := ReadFrame(s, PAGE_MAX_BYTES).value.1;
      var header := ReadHeader(parse, left);
      if header.Ok? && Follow(first, header.value.0).Ok? {
        Shorter(parse, s);
        var next := header.value.0;
        EveryRunCounts(parse, next, header.value.1, Less(takes), Less(hears));
        var more := Stream(parse, next, header.value.1, Less(takes), Less(hears));
        forall i | 0 <= i < |out.pages|
          ensures out.pages[i].index == first.page - 1 + i && out.pages[i].dpi == 300
        {
          if i > 0 {
            assert out.pages[i] == more.pages[i - 1];
          }
        }
      }
    }
  }

  lemma {:induction false} Shorter(parse: Parser, s: bytes)
    ensures ReadFrame(s, PAGE_MAX_BYTES).Ok? ==>
              && |ReadFrame(s, PAGE_MAX_BYTES).value.1| < |s|
              && (ReadHeader(parse, ReadFrame(s, PAGE_MAX_BYTES).value.1).Ok? ==>
                    |ReadHeader(parse, ReadFrame(s, PAGE_MAX_BYTES).value.1).value.1| < |s|)
  {
  }

  /** A header is read exactly where a frame carries one. */
  lemma {:induction false} HeaderIsRead(parse: Parser, s: bytes, u: Upload, rest: bytes)
    ensures ReadHeader(parse, s) == Ok((u, rest)) <==>
              exists header :: 0 < |header| <= CONTROL_MAX_BYTES && s == Frame(header) + rest
                && parse(header) == Ok(UploadMessage(u)) && u.v == PROTOCOL_VERSION && ValidBounds(u)
  {
    hide ReadFrame, Frame;
    if ReadHeader(parse, s) == Ok((u, rest)) {
      var header := ReadFrame(s, CONTROL_MAX_BYTES).value.0;
      FrameReadsBack(s, CONTROL_MAX_BYTES, header, rest);
    }
    forall header | 0 < |header| <= CONTROL_MAX_BYTES && s == Frame(header) + rest
                    && parse(header) == Ok(UploadMessage(u)) && u.v == PROTOCOL_VERSION && ValidBounds(u)
      ensures ReadHeader(parse, s) == Ok((u, rest))
    {
      FrameReadsBack(s, CONTROL_MAX_BYTES, header, rest);
    }
  }

  /** A phone that sends a whole upload, and is listened to, has every page passed on as it sent it. */
  lemma {:induction false} AWholeUploadIsPassedOn(
    parse: Parser, first: Upload, data: bytes, more: seq<Round>, s: bytes, rest: bytes,
    takes: Option<nat>, hears: Option<nat>)
    requires Sends(parse, first, data, more) && |more| == first.of - first.page
    requires (SendsSizes(parse, first, data, more); s == Wire(data, more) + rest)
    requires Allows(takes, |more| + 1) && Allows(hears, |more| + 1)
    ensures Stream(parse, first, s, takes, hears)
            == Streamed(PagesOf(parse, first, data, more), |more| + 1, Ok(rest))
    decreases |more|
  {
    hide ReadFrame, ReadHeader, ParseFormat, Frame;
    SendsSizes(parse, first, data, more);
    if more == [] {
      assert s == Frame(data) + rest;
      FrameReadsBack(s, PAGE_MAX_BYTES, data, rest);
    } else {
      var next := parse(more[0].header).value.upload;
      SendsSizes(parse, next, more[0].data, more[1..]);
      var tail := Wire(more[0].data, more[1..]) + rest;
      assert s == Frame(data) + (Frame(more[0].header) + tail);
      FrameReadsBack(s, PAGE_MAX_BYTES, data, Frame(more[0].header) + tail);
      HeaderIsRead(parse, Frame(more[0].header) + tail, next, tail);
      AWholeUploadIsPassedOn(parse, next, more[0].data, more[1..], tail, rest, Less(takes), Less(hears));
    }
  }

  /** Whatever arrives, the pages passed on are those of one upload sent so far, and nothing besides. */
  lemma {:induction false} PagesAreWhatWasSent(
    parse: Parser, first: Upload, s: bytes, takes: Option<nat>, hears: Option<nat>)
    returns (data: bytes, more: seq<Round>, rest: bytes)
    requires ValidBounds(first) && Stream(parse, first, s, takes, hears).pages != []
    ensures Sends(parse, first, data, more)
    ensures |data| < U32_LIMIT && forall m | m in more :: |m.header| < U32_LIMIT && |m.data| < U32_LIMIT
    ensures s == Wire(data, more) + rest
    ensures Stream(parse, first, s, takes, hears).pages == PagesOf(parse, first, data, more)
    decreases |s|
  {
    hide ReadFrame, ReadHeader, ParseFormat, Frame, Stream, Sends, PagesOf, Wire, NextOf;
    Shorter(parse, s);
    OneRound(parse, first, s, takes, hears);
    data, more := ReadFrame(s, PAGE_MAX_BYTES).value.0, [];
    rest := ReadFrame(s, PAGE_MAX_BYTES).value.1;
    FrameReadsBack(s, PAGE_MAX_BYTES, data, rest);
    OneRoundAlone(parse, first, data);
    var header := ReadHeader(parse, rest);
    if |Stream(parse, first, s, takes, hears).pages| > 1 {
      var next, left := header.value.0, header.value.1;
      HeaderIsRead(parse, rest, next, left);
      var text :| 0 < |text| <= CONTROL_MAX_BYTES && rest == Frame(text) + left
        && parse(text) == Ok(UploadMessage(next)) && next.v == PROTOCOL_VERSION;
      var d, m, r := PagesAreWhatWasSent(parse, next, left, Less(takes), Less(hears));
      FollowedIsNext(first, next);
      more, rest := [Round(text, d)] + m, r;
      OneRoundMore(parse, first, data, next, text, d, m);
      assert s == Frame(data) + (Frame(text) + (Wire(d, m) + r)) == Wire(data, more) + r;
    }
  }

  lemma {:induction false} OneRoundAlone(parse: Parser, first: Upload, data: bytes)
    ensures |data| < U32_LIMIT ==> Wire(data, []) == Frame(data)
    ensures ValidBounds(first) && ParseFormat(first.format).Some? && 0 < |data| <= PAGE_MAX_BYTES ==>
              && Sends(parse, first, data, [])
              && PagesOf(parse, first, data, []) ==
                 [RawPage(first.page - 1, ParseFormat(first.format).value, RESOLUTION_DPI, data)]
  {
    hide ParseFormat;
  }

  lemma {:induction false} OneRoundMore(
    parse: Parser, first: Upload, data: bytes, next: Upload, text: bytes, d: bytes, m: seq<Round>)
    requires ValidBounds(first) && ParseFormat(first.format).Some? && 0 < |data| <= PAGE_MAX_BYTES
    requires 0 < |text| <= CONTROL_MAX_BYTES && parse(text) == Ok(UploadMessage(next))
    requires next.v == PROTOCOL_VERSION && ValidBounds(next) && Follow(first, next).Ok?
    requires Sends(parse, next, d, m)
    requires |d| < U32_LIMIT && forall r | r in m :: |r.header| < U32_LIMIT && |r.data| < U32_LIMIT
    ensures var more := [Round(text, d)] + m;
            && Sends(parse, first, data, more)
            && (forall r | r in more :: |r.header| < U32_LIMIT && |r.data| < U32_LIMIT)
            && Wire(data, more) == Frame(data) + (Frame(text) + Wire(d, m))
            && PagesOf(parse, first, data, more) ==
               [RawPage(first.page - 1, ParseFormat(first.format).value, RESOLUTION_DPI, data)]
               + PagesOf(parse, next, d, m)
  {
    hide ParseFormat, Frame;
    var more := [Round(text, d)] + m;
    assert more[0] == Round(text, d) && more[1..] == m;
    FollowedIsNext(first, next);
  }
}

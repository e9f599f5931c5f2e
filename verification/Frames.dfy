/**
 Frames of the phone protocol: a length in four bytes, big end first, and as many bytes of payload. And
 the one byte that tells an upload in the clear from one over TLS.
 */
module Frames {
  import opened Wrappers
  import opened Bytes

  /** Why an upload ends. `Malformed` covers a connection that closes or stalls, too. */
  datatype ProtocolError =
    | Unauthorized
    | UnsupportedVersion(seen: nat)
    | NotConnected
    | Malformed
    | TooLarge(len: nat)
    | Unsupported

  const CONTROL_MAX_BYTES: nat := 64 * 1024
  const PAGE_MAX_BYTES: nat := 64 * 1024 * 1024
  const U32_LIMIT: nat := 0x1_0000_0000

  function BigEndian(n: nat): (b: bytes)
    requires n < U32_LIMIT
    ensures |b| == 4
  {
    [(n / 0x100 / 0x100 / 0x100) as byte, (n / 0x100 / 0x100 % 0x100) as byte,
     (n / 0x100 % 0x100) as byte, (n % 0x100) as byte]
  }

  function FromBigEndian(b: bytes): (n: nat)
    requires |b| == 4
    ensures n < U32_LIMIT
  {
    b[0] as nat * 0x100_0000 + b[1] as nat * 0x1_0000 + b[2] as nat * 0x100 + b[3] as nat
  }

  lemma {:induction false} LengthReadsBack(n: nat)
    requires n < U32_LIMIT
    ensures FromBigEndian(BigEndian(n)) == n
  {
    assert n / 0x100 / 0x100 == n / 0x100 / 0x100 / 0x100 * 0x100 + n / 0x100 / 0x100 % 0x100;
    assert n / 0x100 == n / 0x100 / 0x100 * 0x100 + n / 0x100 % 0x100;
  }

  lemma {:induction false} Quotient(hi: nat, lo: nat)
    requires lo < 0x100
    ensures (hi * 0x100 + lo) / 0x100 == hi && (hi * 0x100 + lo) % 0x100 == lo
  {
  }

  lemma {:induction false} LengthIsSpelledOneWay(b: bytes)
    requires |b| == 4
    ensures BigEndian(FromBigEndian(b)) == b
  {
    var two := b[0] as nat * 0x100 + b[1] as nat;
    var three := two * 0x100 + b[2] as nat;
    assert FromBigEndian(b) == three * 0x100 + b[3] as nat;
    Quotient(three, b[3] as nat);
    Quotient(two, b[2] as nat);
    Quotient(b[0] as nat, b[1] as nat);
  }

  function Frame(payload: bytes): bytes
    requires |payload| < U32_LIMIT
  {
    BigEndian(|payload|) + payload
  }

  /** A payload and the bytes after its frame. */
  type Framed = Result<(bytes, bytes), ProtocolError>

  /** The first frame of what a connection brings before it ends. */
  function ReadFrame(s: bytes, max: nat): (r: Framed)
    ensures r.Ok? ==> 0 < |r.value.0| <= max && |r.value.1| < |s|
  {
    if |s| < 4 then Err(Malformed)
    else
      var len := FromBigEndian(s[..4]);
      if len == 0 then Err(Malformed)
      else if len > max then Err(TooLarge(len))
      else if |s| < 4 + len then Err(Malformed)
      else Ok((s[4..4 + len], s[4 + len..]))
  }

  /** A frame is read exactly where one was written. */
  lemma {:induction false} FrameReadsBack(s: bytes, max: nat, payload: bytes, rest: bytes)
    requires max < U32_LIMIT
    ensures ReadFrame(s, max) == Ok((payload, rest))
            <==> 0 < |payload| <= max && s == Frame(payload) + rest
  {
    if 0 < |payload| <= max && s == Frame(payload) + rest {
      LengthReadsBack(|payload|);
      assert s[..4] == BigEndian(|payload|);
      assert s[4..4 + |payload|] == payload && s[4 + |payload|..] == rest;
    }
    if ReadFrame(s, max) == Ok((payload, rest)) {
      LengthIsSpelledOneWay(s[..4]);
      assert s == s[..4] + s[4..4 + |payload|] + s[4 + |payload|..];
    }
  }

  /** A frame cut short is no frame. */
  lemma {:induction false} CutFrameIsRefused(payload: bytes, max: nat, m: nat)
    requires 0 < |payload| <= max < U32_LIMIT && m < |Frame(payload)|
    ensures ReadFrame(Frame(payload)[..m], max) == Err(Malformed)
  {
    LengthReadsBack(|payload|);
    if m >= 4 {
      assert Frame(payload)[..m][..4] == BigEndian(|payload|);
    }
  }

  // ----- One frame after another -----

  function FramesOf(payloads: seq<bytes>, max: nat): bytes
    requires max < U32_LIMIT && forall p | p in payloads :: 0 < |p| <= max
  {
    if payloads == [] then [] else Frame(payloads[0]) + FramesOf(payloads[1..], max)
  }

  /** Every payload up to the first that cannot be read, and what ended the reading. */
  function ReadAll(s: bytes, max: nat): (r: (seq<bytes>, ProtocolError))
    decreases |s|
  {
    match ReadFrame(s, max)
    case Err(e) => ([], e)
    case Ok((payload, rest)) =>
      var more := ReadAll(rest, max);
      ([payload] + more.0, more.1)
  }

  lemma {:induction false} NothingIsNoFrame(max: nat)
    ensures ReadFrame([], max) == Err(Malformed)
  {
  }

  /** Frames end to end are read as the payloads they carry, and nothing else. */
  lemma {:induction false} PayloadsReadBack(payloads: seq<bytes>, max: nat)
    requires max < U32_LIMIT && forall p | p in payloads :: 0 < |p| <= max
    ensures ReadAll(FramesOf(payloads, max), max) == (payloads, Malformed)
    decreases |payloads|
  {
    hide ReadFrame, Frame;
    if payloads != [] {
      var rest := FramesOf(payloads[1..], max);
      FrameReadsBack(FramesOf(payloads, max), max, payloads[0], rest);
      PayloadsReadBack(payloads[1..], max);
      assert payloads == [payloads[0]] + payloads[1..];
    } else {
      NothingIsNoFrame(max);
    }
  }

  /** A connection that ends early has given a prefix of its payloads, each of them whole. */
  lemma {:induction false} CutStreamGivesWholePayloads(payloads: seq<bytes>, max: nat, m: nat)
    requires max < U32_LIMIT && forall p | p in payloads :: 0 < |p| <= max
    requires m <= |FramesOf(payloads, max)|
    ensures ReadAll(FramesOf(payloads, max)[..m], max).0 <= payloads
    ensures ReadAll(FramesOf(payloads, max)[..m], max).1 == Malformed
    decreases |payloads|
  {
    hide ReadFrame, Frame;
    NothingIsNoFrame(max);
    var s := FramesOf(payloads, max)[..m];
    if payloads != [] {
      var k := |Frame(payloads[0])|;
      var rest := FramesOf(payloads[1..], max);
      if m < k {
        assert s == Frame(payloads[0])[..m];
        CutFrameIsRefused(payloads[0], max, m);
      } else {
        assert s == Frame(payloads[0]) + rest[..m - k];
        FrameReadsBack(s, max, payloads[0], rest[..m - k]);
        CutStreamGivesWholePayloads(payloads[1..], max, m - k);
      }
    }
  }

  // ----- The two ends of a connection -----

  /** A connection: what it will still bring, and what was written to it. */
  class Socket {
    var incoming: bytes
    var outgoing: bytes

    method ReadFrom(max: nat) returns (r: Result<bytes, ProtocolError>)
      modifies this`incoming
      ensures match ReadFrame(old(incoming), max)
              case Ok((payload, rest)) => r == Ok(payload) && incoming == rest
              case Err(e) => r == Err(e)
      ensures |incoming| <= |old(incoming)|
    {
      if |incoming| < 4 {
        incoming := [];
        return Err(Malformed);
      }
      var len := FromBigEndian(incoming[..4]);
      incoming := incoming[4..];
      if len == 0 {
        return Err(Malformed);
      }
      if len > max {
        return Err(TooLarge(len));
      }
      if |incoming| < len {
        incoming := [];
        return Err(Malformed);
      }
      var payload := incoming[..len];
      assert payload == old(incoming)[4..4 + len] && incoming[len..] == old(incoming)[4 + len..];
      incoming := incoming[len..];
      return Ok(payload);
    }

    /** What is refused here would be refused by the reader too, and is never written. */
    method WriteTo(payload: bytes, max: nat) returns (r: Result<(), ProtocolError>)
      requires max < U32_LIMIT
      modifies this`outgoing
      ensures r.Ok? <==> 0 < |payload| <= max
      ensures r.Ok? ==> outgoing == old(outgoing) + Frame(payload)
      ensures r.Err? ==> outgoing == old(outgoing)
                         && r.error == if payload == [] then Malformed else TooLarge(|payload| % U32_LIMIT)
    {
      if payload == [] {
        return Err(Malformed);
      }
      if |payload| > max {
        return Err(TooLarge(|payload| % U32_LIMIT));
      }
      outgoing := outgoing + BigEndian(|payload|);
      outgoing := outgoing + payload;
      return Ok(());
    }

    /** The first byte, left where it is. */
    method Peek() returns (first: Option<byte>)
      ensures first.None? <==> incoming == []
      ensures first.Some? ==> first.value == incoming[0]
    {
      return if incoming == [] then None else Some(incoming[0]);
    }
  }

  // ----- Which protocol a connection speaks -----

  const TLS_HANDSHAKE_CONTENT_TYPE: byte := 0x16
  const FRAME_LENGTH_TOP_BYTE: byte := 0x00

  datatype Transport = Tls | Clear

  /** Told by the first byte, which stays to be read by whichever protocol it belongs to. */
  method Demux(socket: Socket, identity: bool) returns (r: Result<Transport, ProtocolError>)
    ensures r == Ok(Tls) <==> socket.incoming != [] && socket.incoming[0] == 0x16 && identity
    ensures r == Ok(Clear) <==> socket.incoming != [] && socket.incoming[0] == 0x00
    ensures r.Err? ==> r.error == Malformed
  {
    var first := socket.Peek();
    match first {
      case None => return Err(Malformed);
      case Some(b) =>
        if b == TLS_HANDSHAKE_CONTENT_TYPE {
          return if identity then Ok(Tls) else Err(Malformed);
        }
        return if b == FRAME_LENGTH_TOP_BYTE then Ok(Clear) else Err(Malformed);
    }
  }

  /** No connection that opens with a control frame is taken for TLS, and none that opens with TLS could be read. */
  lemma {:induction false} ControlFramesAreNeverTls(s: bytes)
    ensures ReadFrame(s, CONTROL_MAX_BYTES).Ok? ==> s != [] && s[0] == FRAME_LENGTH_TOP_BYTE
    ensures s != [] && s[0] == TLS_HANDSHAKE_CONTENT_TYPE ==> ReadFrame(s, CONTROL_MAX_BYTES).Err?
  {
    if ReadFrame(s, CONTROL_MAX_BYTES).Ok? {
      assert s[..4][0] == s[0];
    }
  }

  /** What a client writes and what the other end makes of it: every payload it may send, and the branch it lands in. */
  method WhatIsWrittenIsRead(payload: bytes, rest: bytes)
    returns (transport: Result<Transport, ProtocolError>, r: Result<bytes, ProtocolError>)
    requires 0 < |payload| <= CONTROL_MAX_BYTES
    ensures transport == Ok(Clear) && r == Ok(payload)
  {
    var socket := new Socket;
    socket.outgoing := [];
    var sent := socket.WriteTo(payload, CONTROL_MAX_BYTES);
    socket.incoming := socket.outgoing + rest;
    FrameReadsBack(socket.incoming, CONTROL_MAX_BYTES, payload, rest);
    ControlFramesAreNeverTls(socket.incoming);
    transport := Demux(socket, true);
    r := socket.ReadFrom(CONTROL_MAX_BYTES);
  }
}

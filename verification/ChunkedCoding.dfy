/** The chunked transfer coding of section 7.1 of RFC 9112, as far as the reader goes. */
module ChunkedCoding {
  import opened Wrappers
  import opened Bytes
  import opened Text

  datatype DechunkError = SizeNotHexadecimal

  type Dechunked = Result<Option<bytes>, DechunkError>

  /** The size a chunk line states: what precedes the first `;`, trimmed, read as hexadecimal. */
  function ChunkSize(line: bytes): Option<nat> {
    match Decode(line)
    case None => None
    case Some(s) => ParseUnsigned(Trim(UpTo(s, ';')), 16, USIZE_LIMIT)
  }

  function After(entity: bytes, rest: Dechunked): Dechunked {
    match rest
    case Ok(Some(more)) => Ok(Some(entity + more))
    case _ => rest
  }

  /** The entity of a chunked body, or `None` while its zero chunk has not arrived. */
  function Dechunk(body: bytes): Dechunked
    decreases |body|
  {
    match Find(body, CRLF)
    case None => Ok(None)
    case Some(end) =>
      match ChunkSize(body[..end])
      case None => Err(SizeNotHexadecimal)
      case Some(size) =>
        var rest := body[end + 2..];
        if size == 0 then Ok(Some([]))
        else if |rest| < size + 2 then Ok(None)
        else After(rest[..size], Dechunk(rest[size + 2..]))
  }

  /** The loop the source runs: it advances `rest` and extends `entity`. */
  method DechunkLoop(body: bytes) returns (r: Dechunked)
    ensures r == Dechunk(body)
  {
    hide ChunkSize, Find;
    var rest := body;
    var entity: bytes := [];
    assert Dechunk(body) == After([], Dechunk(body)) by { AfterNothing(Dechunk(body)); }
    while true
      invariant Dechunk(body) == After(entity, Dechunk(rest))
      decreases |rest|
    {
      var lineEnd := Find(rest, CRLF);
      if lineEnd.None? {
        return Ok(None);
      }
      var size := ChunkSize(rest[..lineEnd.value]);
      if size.None? {
        return Err(SizeNotHexadecimal);
      }
      ghost var tail := Dechunk(rest);
      rest := rest[lineEnd.value + 2..];
      if size.value == 0 {
        assert entity + [] == entity;
        return Ok(Some(entity));
      }
      if |rest| < size.value + 2 {
        return Ok(None);
      }
      AfterAfter(entity, rest[..size.value], Dechunk(rest[size.value + 2..]));
      entity := entity + rest[..size.value];
      rest := rest[size.value + 2..];
    }
  }

  lemma {:induction false} AfterNothing(rest: Dechunked)
    ensures After([], rest) == rest
  {
    if rest.Ok? && rest.value.Some? {
      assert [] + rest.value.value == rest.value.value;
    }
  }

  lemma {:induction false} AfterAfter(a: bytes, b: bytes, rest: Dechunked)
    ensures After(a, After(b, rest)) == After(a + b, rest)
  {
    if rest.Ok? && rest.value.Some? {
      assert a + (b + rest.value.value) == (a + b) + rest.value.value;
    }
  }

  /** Bytes that arrive later never change an answer already given. */
  lemma {:induction false} DechunkExtends(body: bytes, ext: bytes)
    ensures Dechunk(body) != Ok(None) ==> Dechunk(body + ext) == Dechunk(body)
    decreases |body|
  {
    hide ChunkSize, Find;
    if Dechunk(body) == Ok(None) {
      return;
    }
    FindExtends(body, ext, CRLF);
    var end := Find(body, CRLF).value;
    assert (body + ext)[..end] == body[..end];
    var size := ChunkSize(body[..end]);
    if size.Some? && size.value > 0 {
      var rest := body[end + 2..];
      assert (body + ext)[end + 2..] == rest + ext;
      assert (rest + ext)[..size.value] == rest[..size.value];
      assert (rest + ext)[size.value + 2..] == rest[size.value + 2..] + ext;
      DechunkExtends(rest[size.value + 2..], ext);
    }
  }

  /** A chunk line that states no size is an error as soon as it is there. */
  lemma {:induction false} ABadSizeIsRefused(line: bytes, rest: bytes)
    requires Find(line + CRLF, CRLF) == Some(|line|) && ChunkSize(line) == None
    ensures Dechunk(line + CRLF + rest) == Err(SizeNotHexadecimal)
  {
    hide ChunkSize, Find;
    FindExtends(line + CRLF, rest, CRLF);
    assert (line + CRLF + rest)[..|line|] == line;
  }

  /** It states none if it is no text, or has nothing or anything but hexadecimal before a semicolon. */
  lemma {:induction false} NoSizeStated(line: bytes, before: string, size: string, after: string, extensions: string)
    requires Decode(line) == Some(before + size + after + extensions) && ';' !in before + size + after
    requires extensions == "" || extensions[0] == ';'
    requires Blank(before) && Trimmed(size) && Blank(after)
    requires size == "" || (size[0] != '+' && exists i :: 0 <= i < |size| && DigitValue(size[i]) >= 16)
    ensures ChunkSize(line) == None
  {
    hide Decode, Trim, UpTo, Blank, Trimmed;
    var text := before + size + after;
    if extensions == "" {
      assert text + extensions == text;
      UpToStops(text, ';', "");
    } else {
      assert text + extensions == text + [';'] + extensions[1..];
      UpToStops(text, ';', extensions[1..]);
    }
    TrimTakes(before, size, after);
    if size != "" {
      var i :| 0 <= i < |size| && DigitValue(size[i]) >= 16;
      NoDigitsFrom(size, i, 0);
    }
  }

  lemma {:induction false} NoDigitsFrom(s: string, i: nat, acc: nat)
    requires i < |s| && DigitValue(s[i]) >= 16
    ensures DigitsFrom(s, 16, acc) == None
    decreases |s|
  {
    hide DigitValue;
    if i > 0 && DigitValue(s[0]) < 16 {
      NoDigitsFrom(s[1..], i - 1, acc * 16 + DigitValue(s[0]));
    }
  }

  /** One chunk as a sender writes it: a size line, extensions included, and the data. */
  datatype Chunk = Chunk(line: bytes, data: bytes)

  /** The line holds no CRLF and states the size of the data, which only the last chunk lacks. */
  ghost predicate SizeLine(line: bytes, size: nat) {
    Find(line, CRLF).None? && ChunkSize(line) == Some(size)
  }

  ghost predicate WellFormed(chunks: seq<Chunk>) {
    forall i | 0 <= i < |chunks| :: chunks[i].data != [] && SizeLine(chunks[i].line, |chunks[i].data|)
  }

  function EncodeChunks(chunks: seq<Chunk>, last: bytes): bytes {
    if chunks == [] then last + CRLF
    else chunks[0].line + CRLF + (chunks[0].data + CRLF + EncodeChunks(chunks[1..], last))
  }

  function Entity(chunks: seq<Chunk>): bytes {
    if chunks == [] then [] else chunks[0].data + Entity(chunks[1..])
  }

  /** Decoding what was encoded gives the data back, whatever trailer follows the zero chunk. */
  lemma {:induction false} ChunkedRoundTrip(chunks: seq<Chunk>, last: bytes, trailer: bytes)
    requires WellFormed(chunks) && SizeLine(last, 0)
    ensures Dechunk(EncodeChunks(chunks, last) + trailer) == Ok(Some(Entity(chunks)))
    decreases |chunks|
  {
    hide ChunkSize, Find;
    var body := EncodeChunks(chunks, last) + trailer;
    if chunks == [] {
      FindLineEnd(last, trailer);
      assert body[..|last|] == last;
    } else {
      var c := chunks[0];
      var more := EncodeChunks(chunks[1..], last) + trailer;
      assert body == c.line + CRLF + (c.data + CRLF + more);
      FindLineEnd(c.line, c.data + CRLF + more);
      assert body[..|c.line|] == c.line;
      var rest := body[|c.line| + 2..];
      assert rest == c.data + CRLF + more;
      assert rest[..|c.data|] == c.data;
      assert rest[|c.data| + 2..] == more;
      ChunkedRoundTrip(chunks[1..], last, trailer);
    }
  }

  /** Until the zero chunk's own CRLF is complete, the answer is "not yet". */
  lemma {:induction false} ChunkedPrefixIsUndecided(chunks: seq<Chunk>, last: bytes, n: nat)
    requires WellFormed(chunks) && SizeLine(last, 0)
    requires n < |EncodeChunks(chunks, last)|
    ensures Dechunk(EncodeChunks(chunks, last)[..n]) == Ok(None)
    decreases |chunks|
  {
    hide ChunkSize, Find;
    var body := EncodeChunks(chunks, last);
    if chunks == [] {
      assert body == last + CRLF + [];
      NoLineEndYet(last, [], n);
    } else {
      var c := chunks[0];
      var more := EncodeChunks(chunks[1..], last);
      assert body == c.line + CRLF + (c.data + CRLF + more);
      if n < |c.line| + 2 {
        NoLineEndYet(c.line, c.data + CRLF + more, n);
      } else {
        var rest := (c.data + CRLF + more)[..n - (|c.line| + 2)];
        assert body[..n] == c.line + CRLF + rest;
        FindLineEnd(c.line, rest);
        assert body[..n][..|c.line|] == c.line;
        assert body[..n][|c.line| + 2..] == rest;
        if |rest| >= |c.data| + 2 {
          var k := |rest| - (|c.data| + 2);
          assert rest[|c.data| + 2..] == more[..k];
          ChunkedPrefixIsUndecided(chunks[1..], last, k);
        }
      }
    }
  }

  function HexDigit(d: nat): char
    requires d < 16
  {
    if d < 10 then ('0' as int + d) as char else ('a' as int + d - 10) as char
  }

  /** A size in hexadecimal, without leading zeros. */
  function Hex(n: nat): (s: string)
    ensures s != "" && forall i | 0 <= i < |s| :: DigitValue(s[i]) < 16
  {
    if n < 16 then [HexDigit(n)] else Hex(n / 16) + [HexDigit(n % 16)]
  }

  lemma {:induction false} DigitsSnoc(s: string, d: char, radix: nat, acc: nat)
    requires DigitValue(d) < radix && DigitsFrom(s, radix, acc).Some?
    ensures DigitsFrom(s + [d], radix, acc) == Some(DigitsFrom(s, radix, acc).value * radix + DigitValue(d))
    decreases |s|
  {
    hide DigitValue;
    if s == "" {
      assert (s + [d])[1..] == "";
      assert DigitsFrom("", radix, acc * radix + DigitValue(d)) == Some(acc * radix + DigitValue(d));
    } else {
      assert (s + [d])[1..] == s[1..] + [d];
      DigitsSnoc(s[1..], d, radix, acc * radix + DigitValue(s[0]));
    }
  }

  lemma {:induction false} HexReadsBack(n: nat)
    ensures DigitsFrom(Hex(n), 16, 0) == Some(n)
  {
    if n < 16 {
      assert Hex(n)[1..] == "";
      assert DigitValue(HexDigit(n)) == n;
    } else {
      HexReadsBack(n / 16);
      assert DigitValue(HexDigit(n % 16)) == n % 16;
      DigitsSnoc(Hex(n / 16), HexDigit(n % 16), 16, 0);
    }
  }

  lemma {:induction false} HexDigitsArePlain(s: string)
    requires s != "" && forall i | 0 <= i < |s| :: DigitValue(s[i]) < 16
    ensures Ascii(s) && Trimmed(s) && ';' !in s && s[0] != '+'
    ensures forall i | 0 <= i < |s| :: s[i] != '\r'
  {
  }

  /** The size is read off whatever follows the first semicolon, or off the whole line. */
  lemma {:induction false} SizeOfText(line: bytes, text: string, n: nat)
    requires n < USIZE_LIMIT
    requires Decode(line) == Some(text) && UpTo(text, ';') == Hex(n)
    ensures ChunkSize(line) == Some(n)
  {
    hide Decode, UpTo, Hex;
    HexDigitsArePlain(Hex(n));
    HexReadsBack(n);
    TrimLeaves(Hex(n));
  }

  /** The size line of section 7.1: hexadecimal, then nothing or `;` and extensions of any UTF-8. */
  lemma {:induction false} SizeLineStatesItsSize(n: nat, extensions: bytes)
    requires n < USIZE_LIMIT
    requires extensions == [] || (extensions[0] == 59 && Decode(extensions).Some?)
    requires Find(extensions, CRLF).None?
    ensures Ascii(Hex(n))
    ensures SizeLine(Encode(Hex(n)) + extensions, n)
  {
    hide Hex, ChunkSize;
    var hex := Hex(n);
    HexDigitsArePlain(hex);
    ExtensionsFollow(hex, extensions);
    SizeOfText(Encode(hex) + extensions, Decode(Encode(hex) + extensions).value, n);
    NoCrlfAfterPlainText(Encode(hex), extensions);
  }

  lemma {:induction false} ExtensionsFollow(hex: string, extensions: bytes)
    requires Ascii(hex) && ';' !in hex
    requires extensions == [] || (extensions[0] == 59 && Decode(extensions).Some?)
    ensures Decode(Encode(hex) + extensions).Some?
    ensures UpTo(Decode(Encode(hex) + extensions).value, ';') == hex
  {
    DecodeAscii(hex, extensions);
    var s := Decode(Encode(hex) + extensions).value;
    if extensions == [] {
      assert s == hex + "" == hex;
      UpToStops(hex, ';', "");
    } else {
      var rest := Decode(extensions[1..]);
      assert Decode(extensions) == Prepend(';', rest);
      assert s == hex + [';'] + rest.value;
      UpToStops(hex, ';', rest.value);
    }
  }

  lemma {:induction false} NoCrlfAfterPlainText(text: bytes, more: bytes)
    requires forall i | 0 <= i < |text| :: text[i] != CR
    requires Find(more, CRLF).None?
    ensures Find(text + more, CRLF).None?
  {
    var line := text + more;
    forall j: nat
      ensures !At(line, CRLF, j)
    {
      if j < |text| {
        assert j + 2 <= |line| ==> line[j..j + 2][0] == text[j];
      } else if j + 2 <= |line| {
        SliceOfRest(text, more, j, j + 2);
        assert !At(more, CRLF, j - |text|);
      }
    }
  }
}

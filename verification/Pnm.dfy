/**
 When a scanned page is whole: the header of a P4, P5 or P6 file read off as many bytes as there are,
 and the raster length it states.
 */
module Pnm {
  import opened Wrappers
  import opened Bytes
  import opened Text

  datatype PnmError =
    | MissingMagic
    | UnsupportedKind
    | InvalidNumber
    | HeaderNotUtf8
    | MissingSeparator
    | SizeOverflow

  predicate IsSpace(b: byte) { b == 32 || b == 9 || b == 10 || b == 12 || b == 13 }

  const HASH: byte := 35

  /** Up to, and not including, the line feed that ends a comment. */
  function CommentLen(s: bytes): (n: nat)
    ensures n <= |s|
  {
    if s == [] || s[0] == LF then 0 else 1 + CommentLen(s[1..])
  }

  /** White space and comments before a token. */
  function GapLen(s: bytes): (n: nat)
    ensures n <= |s|
    decreases |s|
  {
    if s == [] then 0
    else if IsSpace(s[0]) then 1 + GapLen(s[1..])
    else if s[0] == HASH then CommentLen(s) + GapLen(s[CommentLen(s)..])
    else 0
  }

  function TokenLen(s: bytes): (n: nat)
    ensures n <= |s|
    ensures n < |s| ==> IsSpace(s[n])
  {
    if s == [] || IsSpace(s[0]) then 0 else 1 + TokenLen(s[1..])
  }

  /** A token and what follows it. */
  type Scanned = Result<Option<(string, bytes)>, PnmError>

  function NextToken(s: bytes): (r: Scanned)
    ensures r.Ok? && r.value.Some? ==> |r.value.value.1| <= |s|
    ensures r.Ok? && r.value.Some? && r.value.value.1 != [] ==> IsSpace(r.value.value.1[0])
  {
    var t := s[GapLen(s)..];
    if t == [] then Ok(None)
    else
      match Decode(t[..TokenLen(t)])
      case None => Err(HeaderNotUtf8)
      case Some(token) => Ok(Some((token, t[TokenLen(t)..])))
  }

  /** A number of the header and what follows it, `None` while there is no token for it. */
  function NextNumber(s: bytes): (r: Result<Option<(nat, bytes)>, PnmError>)
    ensures r.Ok? && r.value.Some? ==> |r.value.value.1| <= |s|
    ensures r.Ok? && r.value.Some? && r.value.value.1 != [] ==> IsSpace(r.value.value.1[0])
  {
    match NextToken(s)
    case Err(e) => Err(e)
    case Ok(None) => Ok(None)
    case Ok(Some((token, rest))) =>
      match ParseUnsigned(token, 10, USIZE_LIMIT)
      case None => Err(InvalidNumber)
      case Some(n) => Ok(Some((n, rest)))
  }

  const P4: byte := 52
  const P5: byte := 53
  const P6: byte := 54

  /** Bytes of raster, or nothing when it cannot be counted in a `usize`. */
  function RasterLen(kind: byte, width: nat, height: nat, maxval: nat): Option<nat> {
    if kind == P4 then
      Some((width + 7) / 8 * height)
    else
      var channels := if kind == P5 then 1 else 3;
      var sample := if maxval < 256 then 1 else 2;
      if width * height >= USIZE_LIMIT then None
      else if width * height * channels >= USIZE_LIMIT then None
      else if width * height * channels * sample >= USIZE_LIMIT then None
      else Some(width * height * channels * sample)
  }

  type Length = Result<Option<nat>, PnmError>

  /** The whole page's length, once the header is read and `rest` follows its last number. */
  function WithRaster(size: nat, rest: bytes, kind: byte, width: nat, height: nat, maxval: nat): Length
    requires |rest| <= size
  {
    if rest == [] then Ok(None)
    else if !IsSpace(rest[0]) then Err(MissingSeparator)
    else
      match RasterLen(kind, width, height, maxval)
      case None => Err(SizeOverflow)
      case Some(payload) =>
        var total := size - |rest| + 1 + payload;
        if total >= USIZE_LIMIT then Err(SizeOverflow)
        else if size < total then Ok(None)
        else Ok(Some(total))
  }

  function AfterSize(b: bytes, rest: bytes, kind: byte, width: nat, height: nat): Length
    requires |rest| <= |b|
  {
    if kind == P4 then
      WithRaster(|b|, rest, kind, width, height, 1)
    else
      match NextNumber(rest)
      case Err(e) => Err(e)
      case Ok(None) => Ok(None)
      case Ok(Some((maxval, rest))) => WithRaster(|b|, rest, kind, width, height, maxval)
  }

  /** How long the page in these bytes is, `None` while it is not all there. */
  function CompletePnmLen(b: bytes): Length {
    if |b| < 3 then Ok(None)
    else if b[0] != 80 then Err(MissingMagic)
    else if b[1] !in {P4, P5, P6} then Err(UnsupportedKind)
    else
      match NextNumber(b[2..])
      case Err(e) => Err(e)
      case Ok(None) => Ok(None)
      case Ok(Some((width, rest))) =>
        match NextNumber(rest)
        case Err(e) => Err(e)
        case Ok(None) => Ok(None)
        case Ok(Some((height, rest))) => AfterSize(b, rest, b[1], width, height)
  }

  // ----- The scanner as it runs: a cursor over the bytes -----

  /** The first of the scanner's loops, with the two inside it: white space and comments. */
  method SkipGap(b: bytes, start: nat) returns (cursor: nat)
    requires start <= |b|
    ensures cursor == start + GapLen(b[start..])
  {
    hide GapLen, CommentLen;
    cursor := start;
    while true
      invariant start <= cursor <= |b|
      invariant start + GapLen(b[start..]) == cursor + GapLen(b[cursor..])
      decreases |b| - cursor
    {
      while cursor < |b| && IsSpace(b[cursor])
        invariant start <= cursor <= |b|
        invariant start + GapLen(b[start..]) == cursor + GapLen(b[cursor..])
      {
        GapAt(b, cursor);
        cursor := cursor + 1;
      }
      GapAt(b, cursor);
      if cursor >= |b| || b[cursor] != HASH {
        return;
      }
      ghost var from := cursor;
      while cursor < |b| && b[cursor] != LF
        invariant from <= cursor <= |b| && (cursor == from ==> cursor < |b| && b[cursor] != LF)
        invariant from + CommentLen(b[from..]) == cursor + CommentLen(b[cursor..])
      {
        CommentAt(b, cursor);
        cursor := cursor + 1;
      }
      CommentAt(b, cursor);
    }
  }

  lemma {:induction false} GapAt(b: bytes, i: nat)
    requires i <= |b|
    ensures i == |b| ==> GapLen(b[i..]) == 0
    ensures i < |b| && IsSpace(b[i]) ==> GapLen(b[i..]) == 1 + GapLen(b[i + 1..])
    ensures i < |b| && b[i] == HASH ==>
      GapLen(b[i..]) == CommentLen(b[i..]) + GapLen(b[i + CommentLen(b[i..])..])
    ensures i < |b| && !IsSpace(b[i]) && b[i] != HASH ==> GapLen(b[i..]) == 0
  {
    if i < |b| {
      assert b[i..][1..] == b[i + 1..];
      assert b[i..][CommentLen(b[i..])..] == b[i + CommentLen(b[i..])..];
    }
  }

  lemma {:induction false} CommentAt(b: bytes, i: nat)
    requires i <= |b|
    ensures CommentLen(b[i..]) == if i == |b| || b[i] == LF then 0 else 1 + CommentLen(b[i + 1..])
  {
    if i < |b| {
      assert b[i..][1..] == b[i + 1..];
    }
  }

  /** The cursor moves over white space, comments and one token. */
  method NextTokenLoop(b: bytes, start: nat) returns (r: Result<Option<string>, PnmError>, cursor: nat)
    requires start <= |b|
    ensures start <= cursor <= |b|
    ensures match NextToken(b[start..])
            case Err(e) => r == Err(e)
            case Ok(None) => r == Ok(None)
            case Ok(Some((token, rest))) => r == Ok(Some(token)) && b[cursor..] == rest
  {
    hide Decode, GapLen, CommentLen;
    cursor := SkipGap(b, start);
    var begin := cursor;
    assert b[start..][GapLen(b[start..])..] == b[begin..];
    if cursor >= |b| {
      return Ok(None), cursor;
    }
    while cursor < |b| && !IsSpace(b[cursor])
      invariant begin <= cursor <= |b|
      invariant begin + TokenLen(b[begin..]) == cursor + TokenLen(b[cursor..])
    {
      assert b[cursor..][1..] == b[cursor + 1..];
      cursor := cursor + 1;
    }
    assert TokenLen(b[cursor..]) == 0;
    assert b[begin..][..cursor - begin] == b[begin..cursor] && b[begin..][cursor - begin..] == b[cursor..];
    match Decode(b[begin..cursor]) {
      case None => return Err(HeaderNotUtf8), cursor;
      case Some(token) => return Ok(Some(token)), cursor;
    }
  }

  method NextNumberAt(b: bytes, start: nat) returns (r: Result<Option<nat>, PnmError>, cursor: nat)
    requires start <= |b|
    ensures start <= cursor <= |b|
    ensures match NextNumber(b[start..])
            case Err(e) => r == Err(e)
            case Ok(None) => r == Ok(None)
            case Ok(Some((n, rest))) => r == Ok(Some(n)) && b[cursor..] == rest
  {
    hide ParseUnsigned, NextToken;
    var token;
    token, cursor := NextTokenLoop(b, start);
    match token {
      case Err(e) => return Err(e), cursor;
      case Ok(None) => return Ok(None), cursor;
      case Ok(Some(text)) =>
        match ParseUnsigned(text, 10, USIZE_LIMIT) {
          case None => return Err(InvalidNumber), cursor;
          case Some(n) => return Ok(Some(n)), cursor;
        }
    }
  }

  method CompletePnmLenLoop(b: bytes) returns (r: Length)
    ensures r == CompletePnmLen(b)
  {
    hide NextNumber, RasterLen;
    if |b| < 3 {
      return Ok(None);
    }
    if b[0] != 80 {
      return Err(MissingMagic);
    }
    var kind := b[1];
    if kind !in {P4, P5, P6} {
      return Err(UnsupportedKind);
    }
    var width, afterWidth := NextNumberAt(b, 2);
    if width.Err? {
      return Err(width.error);
    }
    if width.value.None? {
      return Ok(None);
    }
    var height, cursor := NextNumberAt(b, afterWidth);
    if height.Err? {
      return Err(height.error);
    }
    if height.value.None? {
      return Ok(None);
    }
    var maxval := 1;
    if kind != P4 {
      var top, afterTop := NextNumberAt(b, cursor);
      if top.Err? {
        return Err(top.error);
      }
      if top.value.None? {
        return Ok(None);
      }
      maxval, cursor := top.value.value, afterTop;
    }
    if cursor >= |b| {
      return Ok(None);
    }
    if !IsSpace(b[cursor]) {
      return Err(MissingSeparator);
    }
    match RasterLen(kind, width.value.value, height.value.value, maxval) {
      case None => return Err(SizeOverflow);
      case Some(payload) =>
        var total := cursor + 1 + payload;
        if total >= USIZE_LIMIT {
          return Err(SizeOverflow);
        }
        return if |b| < total then Ok(None) else Ok(Some(total));
    }
  }

  // ----- What holds of every input -----

  /** No input reaches the branch that would find something other than white space after the header. */
  lemma {:induction false} SeparatorIsNeverMissing(b: bytes)
    ensures CompletePnmLen(b) != Err(MissingSeparator)
  {
    hide NextNumber, RasterLen;
    if |b| >= 3 {
      NumberEnds(b[2..]);
      var first := NextNumber(b[2..]);
      if first.Ok? && first.value.Some? {
        var rest := first.value.value.1;
        NumberEnds(rest);
        var second := NextNumber(rest);
        if second.Ok? && second.value.Some? {
          NumberEnds(second.value.value.1);
        }
      }
    }
  }

  /** A number stops at white space or at the end, and fails only for what it reads. */
  lemma {:induction false} NumberEnds(s: bytes)
    ensures var r := NextNumber(s);
            && r != Err(MissingSeparator)
            && (r.Ok? && r.value.Some? && r.value.value.1 != [] ==> IsSpace(r.value.value.1[0]))
  {
    hide Decode, ParseUnsigned;
  }

  lemma {:induction false} CommentExtends(s: bytes, ext: bytes)
    requires CommentLen(s) < |s|
    ensures CommentLen(s + ext) == CommentLen(s)
    decreases |s|
  {
    assert (s + ext)[1..] == s[1..] + ext;
    if s[0] != LF {
      CommentExtends(s[1..], ext);
    }
  }

  lemma {:induction false} GapExtends(s: bytes, ext: bytes)
    requires GapLen(s) < |s|
    ensures GapLen(s + ext) == GapLen(s)
    decreases |s|
  {
    if IsSpace(s[0]) {
      assert (s + ext)[1..] == s[1..] + ext;
      GapExtends(s[1..], ext);
    } else if s[0] == HASH {
      CommentExtends(s, ext);
      var n := CommentLen(s);
      assert (s + ext)[n..] == s[n..] + ext;
      GapExtends(s[n..], ext);
    }
  }

  lemma {:induction false} TokenExtends(s: bytes, ext: bytes)
    requires TokenLen(s) < |s|
    ensures TokenLen(s + ext) == TokenLen(s)
    decreases |s|
  {
    if !IsSpace(s[0]) {
      assert (s + ext)[1..] == s[1..] + ext;
      TokenExtends(s[1..], ext);
    }
  }

  lemma {:induction false} NumberExtends(s: bytes, ext: bytes)
    requires NextNumber(s).Ok? && NextNumber(s).value.Some? && NextNumber(s).value.value.1 != []
    ensures NextNumber(s + ext) == Ok(Some((NextNumber(s).value.value.0, NextNumber(s).value.value.1 + ext)))
  {
    hide Decode, ParseUnsigned, GapLen, TokenLen;
    GapExtends(s, ext);
    var t := s[GapLen(s)..];
    assert (s + ext)[GapLen(s)..] == t + ext;
    TokenExtends(t, ext);
    assert (t + ext)[..TokenLen(t)] == t[..TokenLen(t)];
    assert (t + ext)[TokenLen(t)..] == t[TokenLen(t)..] + ext;
  }

  lemma {:induction false} NoNumberInNothing()
    ensures NextNumber([]) == Ok(None)
  {
  }

  /** Bytes appended to a whole page do not change its length. */
  lemma {:induction false} LengthIsStable(b: bytes, ext: bytes)
    ensures CompletePnmLen(b).Ok? && CompletePnmLen(b).value.Some? ==> CompletePnmLen(b + ext) == CompletePnmLen(b)
  {
    hide NextNumber, RasterLen;
    if CompletePnmLen(b).Err? || CompletePnmLen(b).value.None? {
      return;
    }
    NoNumberInNothing();
    assert (b + ext)[2..] == b[2..] + ext;
    NumberExtends(b[2..], ext);
    var rest := NextNumber(b[2..]).value.value.1;
    NumberExtends(rest, ext);
    if b[1] != P4 {
      NumberExtends(NextNumber(rest).value.value.1, ext);
    }
  }

  // ----- Pages as a writer produces them -----

  /** White space and comments, each comment closed by its line feed. */
  predicate Blank(g: bytes)
    decreases |g|
  {
    g == []
    || (IsSpace(g[0]) && Blank(g[1..]))
    || (g[0] == HASH && CommentLen(g) < |g| && Blank(g[CommentLen(g)..]))
  }

  predicate Digits(s: bytes) {
    s != [] && forall i | 0 <= i < |s| :: 48 <= s[i] <= 57
  }

  function Value(s: bytes, acc: nat): nat
    requires forall i | 0 <= i < |s| :: 48 <= s[i] <= 57
  {
    if s == [] then acc else Value(s[1..], acc * 10 + (s[0] as int - 48))
  }

  const PLUS: byte := 43

  /** A number as the header spells it: what comes before it, a plus sign if it has one, and its digits. */
  datatype Spelled = Spelled(gap: bytes, signed: bool, digits: bytes)

  predicate Spells(f: Spelled, n: nat) {
    Blank(f.gap) && Digits(f.digits) && Value(f.digits, 0) == n && n < USIZE_LIMIT
  }

  function TokenOf(f: Spelled): bytes { (if f.signed then [PLUS] else []) + f.digits }

  function Spelling(f: Spelled): bytes { f.gap + TokenOf(f) }

  /** The first bytes of a number end at its sign. */
  predicate EndsAtSign(f: Spelled, m: nat) { f.signed && m == |f.gap| + 1 }

  lemma {:induction false} BlankIsGap(g: bytes, rest: bytes)
    requires Blank(g) && rest != [] && !IsSpace(rest[0]) && rest[0] != HASH
    ensures GapLen(g + rest) == |g|
    decreases |g|
  {
    if g == [] {
      assert g + rest == rest;
    } else if IsSpace(g[0]) {
      assert (g + rest)[1..] == g[1..] + rest;
      BlankIsGap(g[1..], rest);
    } else {
      var n := CommentLen(g);
      CommentExtends(g, rest);
      assert (g + rest)[n..] == g[n..] + rest;
      BlankIsGap(g[n..], rest);
    }
  }

  lemma {:induction false} CommentPrefix(g: bytes, m: nat)
    requires m <= |g|
    ensures CommentLen(g[..m]) == if m <= CommentLen(g) then m else CommentLen(g)
    decreases m
  {
    if m > 0 && g[0] != LF {
      assert g[..m][1..] == g[1..][..m - 1];
      CommentPrefix(g[1..], m - 1);
    }
  }

  /** A gap cut short, in the middle of a comment even, is all gap. */
  lemma {:induction false} BlankPrefix(g: bytes, m: nat)
    requires Blank(g) && m <= |g|
    ensures GapLen(g[..m]) == m
    decreases m
  {
    if m > 0 {
      if IsSpace(g[0]) {
        assert g[..m][1..] == g[1..][..m - 1];
        BlankPrefix(g[1..], m - 1);
      } else {
        CommentPrefix(g, m);
        var n := CommentLen(g);
        if m > n {
          assert g[..m][n..] == g[n..][..m - n];
          BlankPrefix(g[n..], m - n);
        } else {
          assert g[..m][m..] == [];
        }
      }
    }
  }

  lemma {:induction false} TokenEndsAtSpace(t: bytes, rest: bytes)
    requires forall i | 0 <= i < |t| :: !IsSpace(t[i])
    requires rest != [] ==> IsSpace(rest[0])
    ensures TokenLen(t + rest) == |t|
    decreases |t|
  {
    if t == [] {
      assert t + rest == rest;
    } else {
      assert (t + rest)[1..] == t[1..] + rest;
      TokenEndsAtSpace(t[1..], rest);
    }
  }

  lemma {:induction false} DigitsDecode(d: bytes, acc: nat)
    requires forall i | 0 <= i < |d| :: 48 <= d[i] <= 57
    ensures Decode(d).Some? && |Decode(d).value| == |d|
    ensures d != [] ==> Decode(d).value[0] == d[0] as int as char
    ensures DigitsFrom(Decode(d).value, 10, acc) == Some(Value(d, acc))
    decreases |d|
  {
    if d != [] {
      DigitsDecode(d[1..], acc * 10 + (d[0] as int - 48));
      assert Decode(d).value[1..] == Decode(d[1..]).value;
    }
  }

  lemma {:induction false} ValueGrows(d: bytes, acc: nat, m: nat)
    requires forall i | 0 <= i < |d| :: 48 <= d[i] <= 57
    requires m <= |d|
    ensures acc <= Value(d, acc) && Value(d[..m], acc) <= Value(d, acc)
    decreases |d|
  {
    if d != [] {
      var next := acc * 10 + (d[0] as int - 48);
      if m > 0 {
        assert d[..m][1..] == d[1..][..m - 1];
        ValueGrows(d[1..], next, m - 1);
      } else {
        ValueGrows(d[1..], next, 0);
      }
    }
  }

  lemma {:induction false} TokenParses(f: Spelled)
    requires Digits(f.digits) && Value(f.digits, 0) < USIZE_LIMIT
    ensures Decode(TokenOf(f)).Some?
    ensures ParseUnsigned(Decode(TokenOf(f)).value, 10, USIZE_LIMIT) == Some(Value(f.digits, 0))
  {
    hide DigitsFrom;
    DigitsDecode(f.digits, 0);
    if f.signed {
      assert TokenOf(f)[1..] == f.digits;
    } else {
      assert TokenOf(f) == f.digits;
    }
  }

  lemma {:induction false} SignAloneIsNoNumber()
    ensures Decode([PLUS]) == Some("+") && ParseUnsigned("+", 10, USIZE_LIMIT) == None
  {
    assert [PLUS][1..] == [];
    assert Decode([PLUS]) == Prepend(43 as char, Some(""));
    assert [43 as char] + "" == "+";
  }

  /** A spelled number is read as itself, up to whatever white space follows. */
  lemma {:induction false} SpelledNumber(f: Spelled, n: nat, rest: bytes)
    requires Spells(f, n) && (rest != [] ==> IsSpace(rest[0]))
    ensures NextNumber(Spelling(f) + rest) == Ok(Some((n, rest)))
  {
    hide Decode, ParseUnsigned, Blank, Value;
    TokenParses(f);
    TokenIsRead(f.gap, TokenOf(f), rest);
    assert Spelling(f) + rest == f.gap + (TokenOf(f) + rest);
  }

  lemma {:induction false} TokenIsRead(gap: bytes, t: bytes, rest: bytes)
    requires Blank(gap) && t != [] && t[0] != HASH && Decode(t).Some? && (rest != [] ==> IsSpace(rest[0]))
    requires forall i | 0 <= i < |t| :: !IsSpace(t[i])
    ensures NextToken(gap + (t + rest)) == Ok(Some((Decode(t).value, rest)))
  {
    hide Decode, Blank;
    BlankIsGap(gap, t + rest);
    assert (gap + (t + rest))[|gap|..] == t + rest;
    TokenEndsAtSpace(t, rest);
    assert (t + rest)[..|t|] == t && (t + rest)[|t|..] == rest;
  }

  /** A spelled number cut short is a smaller number with nothing after it, or no number yet, or a sign by itself. */
  lemma {:induction false} CutNumber(f: Spelled, n: nat, m: nat)
    requires Spells(f, n) && m <= |Spelling(f)|
    ensures var r := NextNumber(Spelling(f)[..m]);
            if EndsAtSign(f, m) then r == Err(InvalidNumber)
            else r == Ok(None) || (r.Ok? && r.value.Some? && r.value.value.1 == [])
  {
    hide Decode, ParseUnsigned, Blank, Value;
    var before := |f.gap| + if f.signed then 1 else 0;
    if m <= |f.gap| {
      assert Spelling(f)[..m] == f.gap[..m];
      BlankPrefix(f.gap, m);
    } else if m <= before {
      SignAloneIsNoNumber();
      TokenIsRead(f.gap, [PLUS], []);
      assert Spelling(f)[..m] == f.gap + ([PLUS] + []);
    } else {
      var d := f.digits[..m - before];
      var g := f.(digits := d);
      assert Spelling(f)[..m] == Spelling(g) + [];
      ValueGrows(f.digits, 0, m - before);
      SpelledNumber(g, Value(d, 0), []);
    }
  }

  // ----- The raster, pixel by pixel -----

  function Flat(parts: seq<bytes>): bytes { if parts == [] then [] else parts[0] + Flat(parts[1..]) }

  /** A pixel has one sample, or three in colour; a sample one byte, or two when one does not hold the largest. */
  function PixelSize(kind: byte, maxval: nat): nat {
    (if kind == P6 then 3 else 1) * (if maxval <= 255 then 1 else 2)
  }

  predicate ArePixels(kind: byte, width: nat, maxval: nat, pixels: seq<bytes>, row: bytes) {
    |pixels| == width && (forall pixel | pixel in pixels :: |pixel| == PixelSize(kind, maxval)) && row == Flat(pixels)
  }

  /** A row of bits fills the fewest bytes that hold them; any other is its pixels, one after the other. */
  ghost predicate IsRow(kind: byte, width: nat, maxval: nat, row: bytes) {
    if kind == P4 then width <= 8 * |row| && (row != [] ==> 8 * (|row| - 1) < width)
    else exists pixels :: ArePixels(kind, width, maxval, pixels, row)
  }

  ghost predicate AreRows(kind: byte, width: nat, height: nat, maxval: nat, rows: seq<bytes>, raster: bytes) {
    |rows| == height && (forall row | row in rows :: IsRow(kind, width, maxval, row)) && raster == Flat(rows)
  }

  ghost predicate IsRaster(kind: byte, width: nat, height: nat, maxval: nat, raster: bytes) {
    exists rows :: AreRows(kind, width, height, maxval, rows, raster)
  }

  lemma {:induction false} FlatLen(parts: seq<bytes>, size: nat)
    requires forall part | part in parts :: |part| == size
    ensures |Flat(parts)| == |parts| * size
    decreases |parts|
  {
    if parts != [] {
      assert parts[0] in parts;
      FlatLen(parts[1..], size);
      assert |parts| * size == size + (|parts| - 1) * size;
    }
  }

  function RowSize(kind: byte, width: nat, maxval: nat): nat {
    if kind == P4 then (width + 7) / 8 else width * PixelSize(kind, maxval)
  }

  lemma {:induction false} RowLen(kind: byte, width: nat, maxval: nat, row: bytes)
    requires IsRow(kind, width, maxval, row)
    ensures |row| == RowSize(kind, width, maxval)
  {
    if kind != P4 {
      var pixels :| ArePixels(kind, width, maxval, pixels, row);
      FlatLen(pixels, PixelSize(kind, maxval));
    }
  }

  lemma {:induction false} Associate(a: nat, b: nat, c: nat, d: nat)
    ensures b * (a * (c * d)) == a * b * c * d
    ensures 0 < c && 0 < d ==> a * b <= a * b * c <= a * b * c * d
  {
    assert b * (a * (c * d)) == (a * b) * (c * d) == a * b * c * d;
    if 0 < c && 0 < d {
      MoreIsMore(a * b, c);
      MoreIsMore(a * b * c, d);
    }
  }

  lemma {:induction false} MoreIsMore(n: nat, k: nat)
    requires 0 < k
    ensures n <= n * k
  {
    assert n * k == n + n * (k - 1);
  }

  /** The bytes counted for a raster are those of its rows. */
  lemma {:induction false} RasterSize(kind: byte, width: nat, height: nat, maxval: nat)
    requires kind in {P4, P5, P6}
    ensures var size := height * RowSize(kind, width, maxval);
            RasterLen(kind, width, height, maxval) == if kind == P4 || size < USIZE_LIMIT then Some(size) else None
  {
    if kind != P4 {
      var channels, sample := if kind == P5 then 1 else 3, if maxval < 256 then 1 else 2;
      Associate(width, height, channels, sample);
      assert PixelSize(kind, maxval) == channels * sample;
    }
  }

  /** A raster, as the format spells it, has the length that is counted for it, unless that is past counting. */
  lemma {:induction false} RasterIs(kind: byte, width: nat, height: nat, maxval: nat, raster: bytes)
    requires kind in {P4, P5, P6} && IsRaster(kind, width, height, maxval, raster)
    ensures RasterLen(kind, width, height, maxval)
            == if kind == P4 || |raster| < USIZE_LIMIT then Some(|raster|) else None
  {
    hide IsRow, RasterLen, RowSize;
    var rows :| AreRows(kind, width, height, maxval, rows, raster);
    var size := RowSize(kind, width, maxval);
    forall row | row in rows
      ensures |row| == size
    {
      RowLen(kind, width, maxval, row);
    }
    FlatLen(rows, size);
    RasterSize(kind, width, height, maxval);
  }

  /** There is one of every kind and size: what is counted is never without its raster. */
  lemma {:induction false} EverySizeHasARaster(kind: byte, width: nat, height: nat, maxval: nat) returns (raster: bytes)
    requires kind in {P4, P5, P6}
    ensures IsRaster(kind, width, height, maxval, raster)
  {
    var pixels := seq(width, _ => seq(PixelSize(kind, maxval), _ => 0));
    var row := if kind == P4 then seq((width + 7) / 8, _ => 0) else Flat(pixels);
    assert kind != P4 ==> ArePixels(kind, width, maxval, pixels, row);
    var rows := seq(height, _ => row);
    raster := Flat(rows);
    assert AreRows(kind, width, height, maxval, rows, raster);
  }

  /** A page as a writer spells it. `fields` are width, height and, except for P4, the largest sample. */
  datatype Page = Page(kind: byte, fields: seq<Spelled>, separator: byte, raster: bytes)

  ghost predicate WholePage(p: Page, width: nat, height: nat, maxval: nat) {
    && p.kind in {P4, P5, P6} && |p.fields| == (if p.kind == P4 then 2 else 3)
    && Spells(p.fields[0], width) && Spells(p.fields[1], height)
    && (if p.kind == P4 then maxval == 1 else Spells(p.fields[2], maxval))
    && (forall i | 1 <= i < |p.fields| :: p.fields[i].gap != [] && IsSpace(p.fields[i].gap[0]))
    && IsSpace(p.separator)
    && IsRaster(p.kind, width, height, maxval, p.raster)
    && |PageBytes(p)| < USIZE_LIMIT
  }

  function FieldBytes(fields: seq<Spelled>): bytes {
    if fields == [] then [] else Spelling(fields[0]) + FieldBytes(fields[1..])
  }

  function PageBytes(p: Page): bytes {
    [80 as byte, p.kind] + (FieldBytes(p.fields) + ([p.separator] + p.raster))
  }

  /** The fields after the first begin with white space, and so does what follows them all. */
  ghost predicate Follows(fields: seq<Spelled>, tail: bytes) {
    && (tail != [] ==> IsSpace(tail[0]))
    && forall i | 0 <= i < |fields| :: fields[i].gap != [] && IsSpace(fields[i].gap[0])
  }

  lemma {:induction false} FollowsStartsWithSpace(fields: seq<Spelled>, tail: bytes)
    requires Follows(fields, tail)
    ensures FieldBytes(fields) + tail != [] ==> IsSpace((FieldBytes(fields) + tail)[0])
  {
  }

  /** Reading the first of several fields off their bytes, all of them or only the first `m`. */
  lemma {:induction false} ReadField(fields: seq<Spelled>, n: nat, tail: bytes, m: nat)
    requires fields != [] && Spells(fields[0], n) && Follows(fields[1..], tail)
    requires m <= |FieldBytes(fields) + tail|
    ensures var b := (FieldBytes(fields) + tail)[..m];
            var k := |Spelling(fields[0])|;
            if EndsAtSign(fields[0], m) then NextNumber(b) == Err(InvalidNumber)
            else if m <= k then NextNumber(b) == Ok(None)
                                || (NextNumber(b).Ok? && NextNumber(b).value.Some? && NextNumber(b).value.value.1 == [])
            else k < |FieldBytes(fields) + tail|
                 && NextNumber(b) == Ok(Some((n, (FieldBytes(fields[1..]) + tail)[..m - k])))
  {
    hide Spells, NextNumber;
    var all, rest := FieldBytes(fields) + tail, FieldBytes(fields[1..]) + tail;
    var k := |Spelling(fields[0])|;
    assert all == Spelling(fields[0]) + rest;
    if m <= k {
      assert all[..m] == Spelling(fields[0])[..m];
      CutNumber(fields[0], n, m);
    } else {
      assert all[..m] == Spelling(fields[0]) + rest[..m - k];
      FollowsStartsWithSpace(fields[1..], tail);
      assert rest[..m - k] != [] ==> rest[..m - k][0] == rest[0];
      SpelledNumber(fields[0], n, rest[..m - k]);
    }
  }

  /** The first `m` bytes of these fields end at the sign of one of them. */
  predicate CutAtSign(fields: seq<Spelled>, m: int)
    decreases |fields|
  {
    && m > 0 && fields != []
    && (EndsAtSign(fields[0], m) || CutAtSign(fields[1..], m - |Spelling(fields[0])|))
  }

  lemma {:induction false} CutAtOneOf(fields: seq<Spelled>, m: int)
    requires |fields| in {2, 3} && m > 0
    ensures var m1 := m - |Spelling(fields[0])|;
            var m2 := m1 - |Spelling(fields[1])|;
            CutAtSign(fields, m) <==>
              || EndsAtSign(fields[0], m)
              || (m1 > 0 && EndsAtSign(fields[1], m1))
              || (|fields| == 3 && m1 > 0 && m2 > 0 && EndsAtSign(fields[2], m2))
  {
    var m1 := m - |Spelling(fields[0])|;
    var m2 := m1 - |Spelling(fields[1])|;
    assert fields[1..][0] == fields[1] && fields[1..][1..] == fields[2..];
    assert CutAtSign(fields, m) <==> EndsAtSign(fields[0], m) || CutAtSign(fields[1..], m1);
    if m1 > 0 {
      assert CutAtSign(fields[1..], m1) <==> EndsAtSign(fields[1], m1) || CutAtSign(fields[2..], m2);
    }
    if |fields| == 3 && m2 > 0 {
      assert fields[2..][0] == fields[2] && fields[2..][1..] == [];
      assert CutAtSign(fields[2..], m2) <==> EndsAtSign(fields[2], m2) || CutAtSign([], m2 - |Spelling(fields[2])|);
    }
  }

  lemma {:induction false} CutAtNothing(fields: seq<Spelled>, m: int)
    ensures m <= 0 ==> !CutAtSign(fields, m)
  {
  }

  /** Every way of cutting a page: it is complete exactly when all of it is there, and refused if cut after a sign. */
  lemma {:induction false} CompleteExactlyWhenWhole(p: Page, width: nat, height: nat, maxval: nat, m: nat)
    requires WholePage(p, width, height, maxval) && m <= |PageBytes(p)|
    ensures CompletePnmLen(PageBytes(p)[..m])
            == (if CutAtSign(p.fields, m - 2) then Err(InvalidNumber)
                else if m < |PageBytes(p)| then Ok(None) else Ok(Some(|PageBytes(p)|)))
  {
    hide Spells, RasterLen, IsRaster, CutAtSign, FieldBytes, RowSize, CompletePnmLen;
    var numbers := |FieldBytes(p.fields)| + 2;
    if m <= numbers {
      assert PageBytes(p)[..m] == ([80 as byte, p.kind] + (FieldBytes(p.fields) + []))[..m];
      CutHeader(p.kind, p.fields, width, height, maxval, m);
    } else {
      var header := [80 as byte, p.kind] + FieldBytes(p.fields) + [p.separator];
      WhatFollowsAHeader(p.kind, p.fields, width, height, maxval, p.separator, p.raster[..m - |header|]);
      assert PageBytes(p)[..m] == header + p.raster[..m - |header|];
      RasterIs(p.kind, width, height, maxval, p.raster);
      RasterSize(p.kind, width, height, maxval);
      if CutAtSign(p.fields, m - 2) {
        CutsAreAtSigns(p.fields, m - 2);
      }
    }
  }

  /** A page cut before its separator: refused just after a sign, and otherwise not there yet. */
  lemma {:induction false} CutHeader(
    kind: byte, fields: seq<Spelled>, width: nat, height: nat, maxval: nat, m: nat)
    requires kind in {P4, P5, P6} && |fields| == (if kind == P4 then 2 else 3) && m <= |FieldBytes(fields)| + 2
    requires Spells(fields[0], width) && Spells(fields[1], height) && (kind != P4 ==> Spells(fields[2], maxval))
    requires forall i | 1 <= i < |fields| :: fields[i].gap != [] && IsSpace(fields[i].gap[0])
    ensures CompletePnmLen(([80 as byte, kind] + (FieldBytes(fields) + []))[..m])
            == if CutAtSign(fields, m - 2) then Err(InvalidNumber) else Ok(None)
  {
    hide Spells, NextNumber, RasterLen, CutAtSign, EndsAtSign, Spelling;
    var b := ([80 as byte, kind] + (FieldBytes(fields) + []))[..m];
    NoNumberInNothing();
    CutAtNothing(fields, m - 2);
    if m >= 3 {
      CutAtOneOf(fields, m - 2);
      assert b[2..] == (FieldBytes(fields) + [])[..m - 2];
      assert fields[1..][0] == fields[1] && fields[1..][1..] == fields[2..];
      ReadField(fields, width, [], m - 2);
      var m1 := m - 2 - |Spelling(fields[0])|;
      if m1 > 0 {
        ReadField(fields[1..], height, [], m1);
        var m2 := m1 - |Spelling(fields[1])|;
        if m2 > 0 && kind != P4 {
          assert fields[2..][0] == fields[2] && fields[2..][1..] == [];
          ReadField(fields[2..], maxval, [], m2);
        }
      }
    }
  }

  /** A header and whatever follows it: the page is there, or not yet, or is past counting. */
  lemma {:induction false} WhatFollowsAHeader(
    kind: byte, fields: seq<Spelled>, width: nat, height: nat, maxval: nat, separator: byte, rest: bytes)
    requires kind in {P4, P5, P6} && |fields| == (if kind == P4 then 2 else 3)
    requires Spells(fields[0], width) && Spells(fields[1], height) && (kind != P4 ==> Spells(fields[2], maxval))
    requires forall i | 1 <= i < |fields| :: fields[i].gap != [] && IsSpace(fields[i].gap[0])
    requires IsSpace(separator)
    ensures var header := [80 as byte, kind] + FieldBytes(fields) + [separator];
            var size := height * RowSize(kind, width, maxval);
            CompletePnmLen(header + rest)
            == if |header| + size >= 0x1_0000_0000_0000_0000 then Err(SizeOverflow)
               else if |rest| < size then Ok(None) else Ok(Some(|header| + size))
  {
    hide Spells, NextNumber, RasterLen, Spelling, RowSize, FieldBytes;
    var tail := [separator] + rest;
    var header := [80 as byte, kind] + FieldBytes(fields) + [separator];
    var b := header + rest;
    RasterSize(kind, width, height, if kind == P4 then 1 else maxval);
    RowSizeOfBits(width, maxval);
    assert b[2..] == FieldBytes(fields) + tail;
    FieldsAreRead(fields, width, height, maxval, tail);
    assert b[0] == 80 && b[1] == kind;
  }

  lemma {:induction false} RowSizeOfBits(width: nat, maxval: nat)
    ensures RowSize(P4, width, maxval) == RowSize(P4, width, 1)
  {
  }

  /** All numbers of a header, one after the other. */
  lemma {:induction false} FieldsAreRead(fields: seq<Spelled>, width: nat, height: nat, maxval: nat, tail: bytes)
    requires |fields| in {2, 3} && tail != [] && IsSpace(tail[0])
    requires Spells(fields[0], width) && Spells(fields[1], height) && (|fields| == 3 ==> Spells(fields[2], maxval))
    requires forall i | 1 <= i < |fields| :: fields[i].gap != [] && IsSpace(fields[i].gap[0])
    ensures var first := FieldBytes(fields[1..]) + tail;
            var second := FieldBytes(fields[2..]) + tail;
            && |FieldBytes(fields) + tail| >= 1
            && NextNumber(FieldBytes(fields) + tail) == Ok(Some((width, first)))
            && NextNumber(first) == Ok(Some((height, second)))
            && (if |fields| == 2 then second == tail else NextNumber(second) == Ok(Some((maxval, tail))))
  {
    hide Spells, NextNumber;
    assert fields[1..][0] == fields[1] && fields[1..][1..] == fields[2..];
    ReadWhole(fields, width, tail);
    ReadWhole(fields[1..], height, tail);
    if |fields| == 3 {
      assert fields[2..][0] == fields[2] && fields[2..][1..] == [];
      ReadWhole(fields[2..], maxval, tail);
      assert FieldBytes([]) + tail == tail;
    } else {
      assert FieldBytes(fields[2..]) + tail == tail;
    }
  }

  lemma {:induction false} ReadWhole(fields: seq<Spelled>, n: nat, tail: bytes)
    requires fields != [] && Spells(fields[0], n) && tail != [] && IsSpace(tail[0])
    requires forall i | 1 <= i < |fields| :: fields[i].gap != [] && IsSpace(fields[i].gap[0])
    ensures NextNumber(FieldBytes(fields) + tail) == Ok(Some((n, FieldBytes(fields[1..]) + tail)))
  {
    hide Spells, NextNumber;
    FollowsStartsWithSpace(fields[1..], tail);
    SpelledNumber(fields[0], n, FieldBytes(fields[1..]) + tail);
    assert FieldBytes(fields) + tail == Spelling(fields[0]) + (FieldBytes(fields[1..]) + tail);
  }

  lemma {:induction false} CutsAreAtSigns(fields: seq<Spelled>, m: int)
    requires CutAtSign(fields, m)
    ensures m <= |FieldBytes(fields)| && exists i :: 0 <= i < |fields| && fields[i].signed
    decreases |fields|
  {
    if EndsAtSign(fields[0], m) {
      assert fields[0].signed;
    } else {
      CutsAreAtSigns(fields[1..], m - |Spelling(fields[0])|);
      var i :| 0 <= i < |fields[1..]| && fields[1..][i].signed;
      assert fields[i + 1].signed;
    }
  }

  lemma {:induction false} SignsCanBeCutAt(fields: seq<Spelled>, i: nat) returns (m: nat)
    requires i < |fields| && fields[i].signed
    ensures CutAtSign(fields, m) && m <= |FieldBytes(fields)|
    decreases |fields|
  {
    if i == 0 {
      m := |fields[0].gap| + 1;
    } else {
      m := SignsCanBeCutAt(fields[1..], i - 1);
      m := m + |Spelling(fields[0])|;
    }
  }

  ghost predicate Unsigned(p: Page) { forall f | f in p.fields :: !f.signed }

  /** A page is taken for incomplete until all of it is there exactly if no number in its header has a sign. */
  lemma {:induction false} ExactlyASignIsReadTooSoon(p: Page, width: nat, height: nat, maxval: nat)
    requires WholePage(p, width, height, maxval)
    ensures CompletePnmLen(PageBytes(p)) == Ok(Some(|PageBytes(p)|))
    ensures (forall m | 0 <= m < |PageBytes(p)| :: CompletePnmLen(PageBytes(p)[..m]) == Ok(None)) <==> Unsigned(p)
  {
    hide CompletePnmLen, CutAtSign, Spelling, RasterLen, IsRaster, Spells;
    var size := |PageBytes(p)|;
    forall m | 0 <= m <= size
      ensures CompletePnmLen(PageBytes(p)[..m])
              == (if CutAtSign(p.fields, m - 2) then Err(InvalidNumber)
                  else if m < size then Ok(None) else Ok(Some(size)))
    {
      CompleteExactlyWhenWhole(p, width, height, maxval, m);
    }
    forall m | CutAtSign(p.fields, m)
      ensures m + 2 < size && !Unsigned(p)
    {
      CutsAreAtSigns(p.fields, m);
    }
    assert PageBytes(p)[..size] == PageBytes(p);
    if !Unsigned(p) {
      var i :| 0 <= i < |p.fields| && p.fields[i].signed;
      var m := SignsCanBeCutAt(p.fields, i);
      assert CompletePnmLen(PageBytes(p)[..m + 2]) == Err(InvalidNumber);
    }
  }

  /** One such page: a single grey sample, its width spelled `+1`. */
  const SIGNED_PAGE := Page(
    P5, [Spelled([32], true, [49]), Spelled([32], false, [49]), Spelled([32], false, [49])], 32, [0])

  lemma {:induction false} OneIsSpelled(signed: bool)
    ensures Spells(Spelled([32], signed, [49]), 1)
  {
    assert [32 as byte][1..] == [] && [49 as byte][1..] == [];
    assert Value([], 1) == 1;
  }

  /** Whole it is a page, and its first four bytes are refused. */
  lemma {:induction false} ASignedPageIsRefused()
    ensures WholePage(SIGNED_PAGE, 1, 1, 1)
    ensures CompletePnmLen(PageBytes(SIGNED_PAGE)) == Ok(Some(11))
    ensures CompletePnmLen(PageBytes(SIGNED_PAGE)[..4]) == Err(InvalidNumber)
  {
    hide CompletePnmLen, Spells, IsRaster;
    var p := SIGNED_PAGE;
    SignedRaster();
    OneIsSpelled(true);
    OneIsSpelled(false);
    SignedPageSize();
    ExactlyASignIsReadTooSoon(p, 1, 1, 1);
    CompleteExactlyWhenWhole(p, 1, 1, 1, 4);
  }

  lemma {:induction false} SignedRaster()
    ensures IsRaster(P5, 1, 1, 1, [0])
  {
    assert [[0 as byte]][1..] == [] && Flat([[0 as byte]]) == [0 as byte] + Flat([]);
    assert ArePixels(P5, 1, 1, [[0]], [0]);
    assert AreRows(P5, 1, 1, 1, [[0]], [0]);
  }

  lemma {:induction false} SignedPageSize()
    ensures |PageBytes(SIGNED_PAGE)| == 11
  {
    var fields := SIGNED_PAGE.fields;
    assert fields[1..] == [fields[1], fields[2]] && fields[1..][1..] == [fields[2]] && fields[1..][1..][1..] == [];
    assert FieldBytes([fields[2]]) == Spelling(fields[2]) + FieldBytes([]);
    assert FieldBytes([fields[1], fields[2]]) == Spelling(fields[1]) + FieldBytes([fields[2]]);
    assert FieldBytes(fields) == Spelling(fields[0]) + FieldBytes([fields[1], fields[2]]);
  }
}

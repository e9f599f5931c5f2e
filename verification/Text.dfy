/**
 What the reader takes from Rust's strings: UTF-8 decoding, Unicode whitespace, ASCII case
 folding, splitting, and integer parsing with its leading `+` and its range.
 */
module Text {
  import opened Wrappers
  import opened Bytes

  /** One past the largest `usize` on the 64-bit hosts this runs on. */
  const USIZE_LIMIT: nat := 0x1_0000_0000_0000_0000

  predicate Continuation(b: byte) { 0x80 <= b < 0xC0 }

  /** Well-formed UTF-8 only: no overlong form, no surrogate, nothing past U+10FFFF. */
  function Decode(b: bytes): (r: Option<string>)
    ensures b == [] ==> r == Some("")
  {
    if b == [] then
      Some("")
    else if b[0] < 0x80 then
      Prepend(b[0] as int as char, Decode(b[1..]))
    else if 0xC2 <= b[0] <= 0xDF && |b| >= 2 && Continuation(b[1]) then
      var code := (b[0] as int - 0xC0) * 64 + (b[1] as int - 0x80);
      Prepend(code as char, Decode(b[2..]))
    else if 0xE0 <= b[0] <= 0xEF && |b| >= 3 && Continuation(b[1]) && Continuation(b[2])
            && (b[0] == 0xE0 ==> b[1] >= 0xA0) && (b[0] == 0xED ==> b[1] <= 0x9F) then
      var code := (b[0] as int - 0xE0) * 4096 + (b[1] as int - 0x80) * 64 + (b[2] as int - 0x80);
      Prepend(code as char, Decode(b[3..]))
    else if 0xF0 <= b[0] <= 0xF4 && |b| >= 4 && Continuation(b[1]) && Continuation(b[2]) && Continuation(b[3])
            && (b[0] == 0xF0 ==> b[1] >= 0x90) && (b[0] == 0xF4 ==> b[1] <= 0x8F) then
      var code := (b[0] as int - 0xF0) * 262144 + (b[1] as int - 0x80) * 4096
                  + (b[2] as int - 0x80) * 64 + (b[3] as int - 0x80);
      Prepend(code as char, Decode(b[4..]))
    else
      None
  }

  function Prepend(c: char, rest: Option<string>): Option<string> {
    match rest
    case Some(s) => Some([c] + s)
    case None => None
  }

  predicate Ascii(s: string) { forall i | 0 <= i < |s| :: s[i] < 128 as char }

  function Encode(s: string): (b: bytes)
    requires Ascii(s)
    ensures |b| == |s| && forall i | 0 <= i < |s| :: b[i] as int == s[i] as int
  {
    seq(|s|, i requires 0 <= i < |s| => s[i] as int as byte)
  }

  lemma {:induction false} DecodeOne(b: byte, rest: bytes)
    requires b < 0x80
    ensures Decode([b] + rest) == Prepend(b as int as char, Decode(rest))
  {
    assert ([b] + rest)[1..] == rest;
  }

  /** ASCII text in front of any bytes decodes to itself in front of what they decode to. */
  lemma {:induction false} DecodeAscii(s: string, rest: bytes)
    requires Ascii(s)
    ensures Decode(Encode(s) + rest) == (match Decode(rest) case Some(t) => Some(s + t) case None => None)
  {
    hide Decode;
    if s == "" {
      assert Encode(s) + rest == rest;
      if Decode(rest).Some? { assert s + Decode(rest).value == Decode(rest).value; }
    } else {
      DecodeAscii(s[1..], rest);
      DecodeOne(Encode(s)[0], Encode(s[1..]) + rest);
      assert Encode(s) + rest == [Encode(s)[0]] + (Encode(s[1..]) + rest);
      if Decode(rest).Some? {
        assert [s[0]] + (s[1..] + Decode(rest).value) == s + Decode(rest).value;
      }
    }
  }

  /** Two well-formed pieces of UTF-8 decode to their texts, one after the other. */
  lemma {:induction false} DecodeAppend(a: bytes, b: bytes)
    requires Decode(a).Some?
    ensures Decode(a + b) == (match Decode(b) case Some(t) => Some(Decode(a).value + t) case None => None)
    decreases |a|
  {
    if a == [] {
      assert a + b == b;
      if Decode(b).Some? { assert "" + Decode(b).value == Decode(b).value; }
    } else {
      var n := FirstCharLen(a);
      FirstChar(a, b);
      DecodeAppend(a[n..], b);
      if Decode(b).Some? {
        var rest := Decode(a[n..]).value;
        assert Decode(a).value == [Decode(a).value[0]] + rest;
        assert [Decode(a).value[0]] + (rest + Decode(b).value) == Decode(a).value + Decode(b).value;
      }
    }
  }

  /** How many bytes the first character takes. */
  function FirstCharLen(a: bytes): (n: nat)
    requires a != []
    ensures n > 0
  {
    if a[0] < 0x80 then 1 else if a[0] <= 0xDF then 2 else if a[0] <= 0xEF then 3 else 4
  }

  lemma {:induction false} FirstChar(a: bytes, b: bytes)
    requires a != [] && Decode(a).Some?
    ensures FirstCharLen(a) <= |a| && Decode(a[FirstCharLen(a)..]).Some? && Decode(a).value != ""
    ensures Decode(a).value == [Decode(a).value[0]] + Decode(a[FirstCharLen(a)..]).value
    ensures Decode(a + b) == Prepend(Decode(a).value[0], Decode(a[FirstCharLen(a)..] + b))
    ensures CR !in a ==> Decode(a).value[0] != '\r'
  {
    var n := FirstCharLen(a);
    assert (a + b)[n..] == a[n..] + b;
    assert forall i | 0 <= i < n :: (a + b)[i] == a[i];
  }

  lemma {:induction false} NoReturnInText(a: bytes)
    requires CR !in a && Decode(a).Some?
    ensures '\r' !in Decode(a).value
    decreases |a|
  {
    hide Decode;
    if a != [] {
      FirstChar(a, []);
      NoReturnInText(a[FirstCharLen(a)..]);
    } else {
      NothingDecodes();
    }
  }

  lemma {:induction false} NothingDecodes()
    ensures Decode([]) == Some("")
  {
  }

  predicate IsWhitespace(c: char) {
    var n := c as int;
    || 9 <= n <= 13 || n == 0x20 || n == 0x85 || n == 0xA0 || n == 0x1680
    || 0x2000 <= n <= 0x200A || n == 0x2028 || n == 0x2029 || n == 0x202F || n == 0x205F || n == 0x3000
  }

  function TrimStart(s: string): (r: string)
    ensures |r| <= |s| && r == s[|s| - |r|..]
    ensures r != "" ==> !IsWhitespace(r[0])
  {
    if s != "" && IsWhitespace(s[0]) then TrimStart(s[1..]) else s
  }

  function TrimEnd(s: string): (r: string)
    ensures r <= s
    ensures r != "" ==> !IsWhitespace(r[|r| - 1])
  {
    if s != "" && IsWhitespace(s[|s| - 1]) then TrimEnd(s[..|s| - 1]) else s
  }

  function Trim(s: string): string { TrimEnd(TrimStart(s)) }

  /** Nothing at either end for `Trim` to take. */
  predicate Trimmed(s: string) {
    s != "" ==> !IsWhitespace(s[0]) && !IsWhitespace(s[|s| - 1])
  }

  lemma {:induction false} TrimLeaves(s: string)
    ensures Trimmed(Trim(s))
    ensures Trimmed(s) ==> Trim(s) == s
  {
    var t := TrimStart(s);
    if Trim(s) != "" {
      assert Trim(s)[0] == t[0];
    }
  }

  predicate Blank(s: string) { forall i | 0 <= i < |s| :: IsWhitespace(s[i]) }

  /** White space around a text that has none at its ends is what trimming takes. */
  lemma {:induction false} TrimTakes(before: string, s: string, after: string)
    requires Blank(before) && Trimmed(s) && Blank(after)
    ensures Trim(before + s + after) == s
  {
    hide IsWhitespace, TrimStart, TrimEnd;
    assert before + s + after == before + (s + after);
    TrimStartTakes(before, s + after);
    if s == "" {
      assert s + after == after && after + "" == after;
      TrimStartTakes(after, "");
      NothingToTrim();
    } else {
      assert (s + after)[0] == s[0];
      TrimStartStops(s + after);
      TrimEndTakes(s, after);
    }
  }

  lemma {:induction false} TrimStartStops(s: string)
    requires s != "" && !IsWhitespace(s[0])
    ensures TrimStart(s) == s
  {
  }

  lemma {:induction false} NothingToTrim()
    ensures TrimStart("") == "" && TrimEnd("") == ""
  {
  }

  lemma {:induction false} TrimStartTakes(before: string, s: string)
    requires Blank(before)
    ensures TrimStart(before + s) == TrimStart(s)
    decreases |before|
  {
    hide IsWhitespace;
    if before == "" {
      assert before + s == s;
    } else {
      assert (before + s)[1..] == before[1..] + s;
      TrimStartTakes(before[1..], s);
    }
  }

  lemma {:induction false} TrimEndTakes(s: string, after: string)
    requires Blank(after) && (s != "" ==> !IsWhitespace(s[|s| - 1]))
    ensures TrimEnd(s + after) == s
    decreases |after|
  {
    hide IsWhitespace;
    if after == "" {
      assert s + after == s;
    } else {
      assert (s + after)[..|s + after| - 1] == s + after[..|after| - 1];
      TrimEndTakes(s, after[..|after| - 1]);
    }
  }

  function LowerChar(c: char): char {
    if 'A' <= c <= 'Z' then (c as int + 32) as char else c
  }

  function Lower(s: string): (r: string)
    ensures |r| == |s|
  {
    seq(|s|, i requires 0 <= i < |s| => LowerChar(s[i]))
  }

  predicate EqIgnoreAsciiCase(a: string, b: string) { Lower(a) == Lower(b) }

  /** Everything before the first `c`. */
  function UpTo(s: string, c: char): (r: string)
    ensures r <= s && c !in r
    ensures c in s ==> |r| < |s| && s[|r|] == c
  {
    if s == "" || s[0] == c then "" else [s[0]] + UpTo(s[1..], c)
  }

  lemma {:induction false} UpToStops(a: string, c: char, b: string)
    requires c !in a
    ensures UpTo(a, c) == a
    ensures UpTo(a + [c] + b, c) == a
  {
    if a != "" {
      UpToStops(a[1..], c, b);
      assert (a + [c] + b)[1..] == a[1..] + [c] + b;
    }
  }

  /** The pieces between separators, as Rust's `split` gives them: always at least one. */
  function Split(s: string, c: char): (r: seq<string>)
    ensures |r| > 0
    decreases |s|
  {
    var first := UpTo(s, c);
    if |first| == |s| then [first] else [first] + Split(s[|first| + 1..], c)
  }

  /** The lines of a header block, which are separated by CRLF and by nothing else. */
  function Lines(s: string): (r: seq<string>)
    ensures |r| > 0
  {
    if s == "" then
      [""]
    else if |s| >= 2 && s[0] == '\r' && s[1] == '\n' then
      [""] + Lines(s[2..])
    else
      var r := Lines(s[1..]);
      [[s[0]] + r[0]] + r[1..]
  }

  function Words(s: string): seq<string> {
    var t := TrimStart(s);
    if t == "" then [] else
      var w := Word(t);
      [w] + Words(t[|w|..])
  }

  function Word(s: string): (w: string)
    ensures w <= s
    ensures s != "" && !IsWhitespace(s[0]) ==> w != ""
  {
    if s == "" || IsWhitespace(s[0]) then "" else [s[0]] + Word(s[1..])
  }

  function DigitValue(c: char): nat {
    if '0' <= c <= '9' then c as int - '0' as int
    else if 'a' <= c <= 'z' then c as int - 'a' as int + 10
    else if 'A' <= c <= 'Z' then c as int - 'A' as int + 10
    else 36
  }

  /** Digits of `radix`, most significant first, with `acc` already read. */
  function DigitsFrom(s: string, radix: nat, acc: nat): Option<nat> {
    if s == "" then Some(acc)
    else if DigitValue(s[0]) >= radix then None
    else DigitsFrom(s[1..], radix, acc * radix + DigitValue(s[0]))
  }

  /** Rust's `from_str_radix` for an unsigned type holding values below `limit`. */
  function ParseUnsigned(s: string, radix: nat, limit: nat): (r: Option<nat>)
    ensures r.Some? ==> r.value < limit
  {
    var digits := if |s| > 0 && s[0] == '+' then s[1..] else s;
    if digits == "" then None else
      match DigitsFrom(digits, radix, 0)
      case Some(n) => if n < limit then Some(n) else None
      case None => None
  }
}

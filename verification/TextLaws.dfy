/** What the text functions mean, each told apart from the way it is computed. */
module TextLaws {
  import opened Wrappers
  import opened Bytes
  import opened Text

  // ----- Letter case -----

  /** The same character, or one ASCII letter in its two cases. */
  predicate SameLetter(a: char, b: char) {
    || a == b
    || ('A' <= a <= 'Z' && 'a' <= b <= 'z' && b as int - 'a' as int == a as int - 'A' as int)
    || ('a' <= a <= 'z' && 'A' <= b <= 'Z' && a as int - 'a' as int == b as int - 'A' as int)
  }

  predicate SameButForCase(a: string, b: string) {
    |a| == |b| && forall i | 0 <= i < |a| :: SameLetter(a[i], b[i])
  }

  lemma {:induction false} SameLetterIs(a: char, b: char)
    ensures SameLetter(a, b) <==> LowerChar(a) == LowerChar(b)
  {
  }

  lemma {:induction false} IgnoringCaseIs(a: string, b: string)
    ensures EqIgnoreAsciiCase(a, b) <==> SameButForCase(a, b)
  {
    hide LowerChar, SameLetter;
    forall i | 0 <= i < |a| && i < |b|
      ensures SameLetter(a[i], b[i]) <==> Lower(a)[i] == Lower(b)[i]
    {
      SameLetterIs(a[i], b[i]);
    }
  }

  // ----- UTF-8 -----

  /** Section 3 of RFC 3629. */
  function Utf8Char(c: char): (b: bytes)
    ensures b != []
  {
    var n := c as int;
    if n < 0x80 then [n as byte]
    else if n < 0x800 then [(0xC0 + n / 0x40) as byte, (0x80 + n % 0x40) as byte]
    else if n < 0x1_0000 then
      [(0xE0 + n / 0x1000) as byte, (0x80 + n / 0x40 % 0x40) as byte, (0x80 + n % 0x40) as byte]
    else
      [(0xF0 + n / 0x4_0000) as byte, (0x80 + n / 0x1000 % 0x40) as byte,
       (0x80 + n / 0x40 % 0x40) as byte, (0x80 + n % 0x40) as byte]
  }

  function Utf8(s: string): bytes {
    if s == "" then [] else Utf8Char(s[0]) + Utf8(s[1..])
  }

  lemma {:induction false} CharDecodes(c: char, rest: bytes)
    ensures Decode(Utf8Char(c) + rest) == Prepend(c, Decode(rest))
  {
    hide Decode;
    var n := c as int;
    if n < 0x80 {
      DecodeOne(n as byte, rest);
    } else if n < 0x800 {
      DecodeTwo(n / 0x40, n % 0x40, rest);
    } else if n < 0x1_0000 {
      assert n / 0x40 == n / 0x1000 * 0x40 + n / 0x40 % 0x40;
      DecodeThree(c, n / 0x1000, n / 0x40 % 0x40, n % 0x40, rest);
    } else {
      assert n / 0x40 == n / 0x1000 * 0x40 + n / 0x40 % 0x40;
      assert n / 0x1000 == n / 0x4_0000 * 0x40 + n / 0x1000 % 0x40;
      DecodeFour(c, n / 0x4_0000, n / 0x1000 % 0x40, n / 0x40 % 0x40, n % 0x40, rest);
    }
  }

  lemma {:induction false} DecodeTwo(x: nat, y: nat, rest: bytes)
    requires 2 <= x < 0x20 && y < 0x40
    ensures Decode([(0xC0 + x) as byte, (0x80 + y) as byte] + rest) == Prepend((x * 0x40 + y) as char, Decode(rest))
  {
    assert ([(0xC0 + x) as byte, (0x80 + y) as byte] + rest)[2..] == rest;
  }

  lemma {:induction false} DecodeThree(c: char, x: nat, y: nat, z: nat, rest: bytes)
    requires x < 0x10 && y < 0x40 && z < 0x40
    requires c as int == x * 0x1000 + y * 0x40 + z >= 0x800
    ensures Decode([(0xE0 + x) as byte, (0x80 + y) as byte, (0x80 + z) as byte] + rest) == Prepend(c, Decode(rest))
  {
    assert ([(0xE0 + x) as byte, (0x80 + y) as byte, (0x80 + z) as byte] + rest)[3..] == rest;
  }

  lemma {:induction false} DecodeFour(c: char, x: nat, y: nat, z: nat, w: nat, rest: bytes)
    requires x < 5 && y < 0x40 && z < 0x40 && w < 0x40
    requires c as int == x * 0x4_0000 + y * 0x1000 + z * 0x40 + w >= 0x1_0000
    ensures Decode([(0xF0 + x) as byte, (0x80 + y) as byte, (0x80 + z) as byte, (0x80 + w) as byte] + rest)
            == Prepend(c, Decode(rest))
  {
    assert ([(0xF0 + x) as byte, (0x80 + y) as byte, (0x80 + z) as byte, (0x80 + w) as byte] + rest)[4..] == rest;
  }

  /** Every text is decoded from its UTF-8. */
  lemma {:induction false} Utf8Decodes(s: string)
    ensures Decode(Utf8(s)) == Some(s)
    decreases |s|
  {
    hide Decode, Utf8Char;
    if s == "" {
      NothingDecodes();
    } else {
      Utf8Decodes(s[1..]);
      CharDecodes(s[0], Utf8(s[1..]));
      assert [s[0]] + s[1..] == s;
    }
  }

  /** How the bytes of the first character make its code. */
  lemma {:induction false} FirstCharCode(b: bytes)
    requires b != [] && Decode(b).Some?
    ensures FirstCharLen(b) <= |b| && Decode(b).value != ""
    ensures var n, c := FirstCharLen(b), Decode(b).value[0] as int;
            && (forall i | 1 <= i < n :: 0x80 <= b[i] < 0xC0)
            && (n == 1 ==> c == b[0] as int < 0x80)
            && (n == 2 ==> 0xC2 <= b[0] && c == (b[0] as int - 0xC0) * 0x40 + (b[1] as int - 0x80))
            && (n == 3 ==> c == (b[0] as int - 0xE0) * 0x1000 + (b[1] as int - 0x80) * 0x40 + (b[2] as int - 0x80)
                           && 0x800 <= c)
            && (n == 4 ==> c == (b[0] as int - 0xF0) * 0x4_0000 + (b[1] as int - 0x80) * 0x1000
                                + (b[2] as int - 0x80) * 0x40 + (b[3] as int - 0x80) && 0x1_0000 <= c)
            && (n == 2 ==> b[0] <= 0xDF) && (n == 3 ==> 0xE0 <= b[0] <= 0xEF) && (n == 4 ==> 0xF0 <= b[0] <= 0xF4)
  {
  }

  lemma {:induction false} Divide(hi: nat, lo: nat)
    requires lo < 0x40
    ensures (hi * 0x40 + lo) / 0x40 == hi && (hi * 0x40 + lo) % 0x40 == lo
  {
  }

  lemma {:induction false} FirstCharIsSpelledOneWay(b: bytes)
    requires b != [] && Decode(b).Some?
    ensures var n := FirstCharLen(b);
            n <= |b| && Decode(b).value != "" && b[..n] == Utf8Char(Decode(b).value[0])
  {
    hide Decode;
    FirstCharCode(b);
    var n, c := FirstCharLen(b), Decode(b).value[0];
    if n == 2 {
      Divide(b[0] as int - 0xC0, b[1] as int - 0x80);
    } else if n == 3 {
      SpellsThree(c, b[0], b[1], b[2]);
    } else if n == 4 {
      SpellsFour(c, b[0], b[1], b[2], b[3]);
    }
  }

  lemma {:induction false} SpellsThree(c: char, x: byte, y: byte, z: byte)
    requires 0xE0 <= x <= 0xEF && 0x80 <= y < 0xC0 && 0x80 <= z < 0xC0
    requires c as int == (x as int - 0xE0) * 0x1000 + (y as int - 0x80) * 0x40 + (z as int - 0x80)
    requires 0x800 <= c as int
    ensures Utf8Char(c) == [x, y, z]
  {
    var two := (x as int - 0xE0) * 0x40 + (y as int - 0x80);
    assert c as int == two * 0x40 + (z as int - 0x80);
    Divide(two, z as int - 0x80);
    Divide(x as int - 0xE0, y as int - 0x80);
    assert c as int / 0x1000 == c as int / 0x40 / 0x40;
  }

  lemma {:induction false} SpellsFour(c: char, x: byte, y: byte, z: byte, w: byte)
    requires 0xF0 <= x <= 0xF4 && 0x80 <= y < 0xC0 && 0x80 <= z < 0xC0 && 0x80 <= w < 0xC0
    requires c as int == (x as int - 0xF0) * 0x4_0000 + (y as int - 0x80) * 0x1000 + (z as int - 0x80) * 0x40
                         + (w as int - 0x80)
    requires 0x1_0000 <= c as int
    ensures Utf8Char(c) == [x, y, z, w]
  {
    var two := (x as int - 0xF0) * 0x40 + (y as int - 0x80);
    var three := two * 0x40 + (z as int - 0x80);
    assert c as int == three * 0x40 + (w as int - 0x80);
    Divide(three, w as int - 0x80);
    Divide(two, z as int - 0x80);
    Divide(x as int - 0xF0, y as int - 0x80);
    assert c as int / 0x1000 == c as int / 0x40 / 0x40 && c as int / 0x4_0000 == c as int / 0x1000 / 0x40;
  }

  /** And nothing else is: bytes decode to a text exactly if they are its UTF-8. */
  lemma {:induction false} DecodeIs(b: bytes, s: string)
    ensures Decode(b) == Some(s) <==> b == Utf8(s)
    decreases |b|
  {
    hide Decode, Utf8Char, FirstCharLen;
    if b == Utf8(s) {
      Utf8Decodes(s);
    }
    if Decode(b) == Some(s) {
      if b == [] {
        NothingDecodes();
      } else {
        var n := FirstCharLen(b);
        FirstCharIsSpelledOneWay(b);
        FirstChar(b, []);
        var rest := Decode(b[n..]).value;
        assert s[1..] == rest;
        DecodeIs(b[n..], rest);
        assert b == b[..n] + b[n..];
      }
    }
  }

  // ----- Separators -----

  /** `item` stands in `list` between commas, or its ends. */
  predicate IsItem(list: string, before: string, item: string, after: string) {
    && list == before + item + after && ',' !in item
    && (before == "" || before[|before| - 1] == ',')
    && (after == "" || after[0] == ',')
  }

  ghost predicate ItemOf(list: string, item: string) {
    exists before, after :: IsItem(list, before, item, after)
  }

  lemma {:induction false} UpToEnds(s: string, c: char)
    ensures |UpTo(s, c)| < |s| ==> s[|UpTo(s, c)|] == c && s == UpTo(s, c) + [c] + s[|UpTo(s, c)| + 1..]
  {
    if c !in s {
      UpToStops(s, c, "");
    }
  }

  /** The item at the front, and those of what follows its comma. */
  lemma {:induction false} SplitFront(list: string)
    ensures var first := UpTo(list, ',');
            Split(list, ',') == if |first| == |list| then [first] else [first] + Split(list[|first| + 1..], ',')
  {
  }

  lemma {:induction false} ItemOfRest(list: string, first: string, rest: string, item: string)
    requires list == first + [','] + rest && ItemOf(rest, item)
    ensures ItemOf(list, item)
  {
    var before, after :| IsItem(rest, before, item, after);
    assert list == (first + [','] + before) + item + after;
    assert IsItem(list, first + [','] + before, item, after);
  }

  lemma {:induction false} FrontIsItem(list: string)
    ensures ItemOf(list, UpTo(list, ','))
  {
    var first := UpTo(list, ',');
    UpToEnds(list, ',');
    var after := list[|first|..];
    {
      hide UpTo;
      assert list == "" + first + after;
      assert after != "" ==> after[0] == list[|first|];
    }
    assert IsItem(list, "", first, after);
  }

  lemma {:induction false} SplitGivesItems(list: string, item: string)
    requires item in Split(list, ',')
    ensures ItemOf(list, item)
    decreases |list|
  {
    hide UpTo, Split, ItemOf;
    var first := UpTo(list, ',');
    SplitFront(list);
    FrontIsItem(list);
    UpToEnds(list, ',');
    if item != first {
      var rest := list[|first| + 1..];
      SplitGivesItems(rest, item);
      ItemOfRest(list, first, rest, item);
    }
  }

  lemma {:induction false} ItemsAreSplit(list: string, before: string, item: string, after: string)
    requires IsItem(list, before, item, after)
    ensures item in Split(list, ',')
    decreases |list|
  {
    hide UpTo, Split;
    SplitFront(list);
    if before == "" {
      assert list == item + after;
      if after == "" {
        assert list == item;
        UpToStops(item, ',', "");
      } else {
        assert list == item + [','] + after[1..];
        UpToStops(item, ',', after[1..]);
      }
    } else {
      var head := UpTo(before, ',');
      UpToEnds(before, ',');
      assert ',' in before;
      var tail := before[|head| + 1..];
      var rest := tail + item + after;
      assert list == head + [','] + rest;
      UpToStops(head, ',', rest);
      assert list[|head| + 1..] == rest;
      ItemsAreSplit(rest, tail, item, after);
    }
  }

  lemma {:induction false} SplitIs(list: string, item: string)
    ensures item in Split(list, ',') <==> ItemOf(list, item)
  {
    hide Split;
    if item in Split(list, ',') {
      SplitGivesItems(list, item);
    }
    if ItemOf(list, item) {
      var before, after :| IsItem(list, before, item, after);
      ItemsAreSplit(list, before, item, after);
    }
  }

  /** `core` with white space around it and none at its own ends. */
  predicate IsTrimmed(s: string, before: string, core: string, after: string) {
    s == before + core + after && Blank(before) && Trimmed(core) && Blank(after)
  }

  ghost predicate TrimmedOf(s: string, core: string) {
    exists before, after :: IsTrimmed(s, before, core, after)
  }

  lemma {:induction false} TrimIs(s: string, core: string)
    ensures Trim(s) == core <==> TrimmedOf(s, core)
  {
    hide Trim, Blank, Trimmed;
    if TrimmedOf(s, core) {
      var before, after :| IsTrimmed(s, before, core, after);
      TrimTakes(before, core, after);
    }
    TrimIsTrimmed(s);
  }

  lemma {:induction false} TrimIsTrimmed(s: string)
    ensures TrimmedOf(s, Trim(s))
  {
    hide TrimStart, TrimEnd, Blank, Trimmed;
    var before := StartIsBlank(s);
    var after := EndIsBlank(TrimStart(s));
    TrimLeaves(s);
    assert before + (Trim(s) + after) == before + Trim(s) + after;
    assert IsTrimmed(s, before, Trim(s), after);
  }

  lemma {:induction false} BlankJoins(a: string, b: string)
    requires Blank(a) && Blank(b)
    ensures Blank(a + b)
  {
    hide IsWhitespace;
  }

  lemma {:induction false} BlankChar(c: char)
    requires IsWhitespace(c)
    ensures Blank([c])
  {
    hide IsWhitespace;
  }

  lemma {:induction false} StartIsBlank(s: string) returns (before: string)
    ensures Blank(before) && s == before + TrimStart(s)
    decreases |s|
  {
    hide IsWhitespace, Blank, TrimStart;
    TrimStartStep(s);
    if s != "" && IsWhitespace(s[0]) {
      var more := StartIsBlank(s[1..]);
      before := [s[0]] + more;
      BlankChar(s[0]);
      BlankJoins([s[0]], more);
      TextsAssociate([s[0]], more, TrimStart(s));
      assert s == [s[0]] + s[1..];
    } else {
      before := "";
      NothingIsBlank();
      assert "" + s == s;
    }
  }

  lemma {:induction false} TrimStartStep(s: string)
    ensures TrimStart(s) == if s != "" && IsWhitespace(s[0]) then TrimStart(s[1..]) else s
  {
    hide IsWhitespace;
  }

  lemma {:induction false} TrimEndStep(s: string)
    ensures TrimEnd(s) == if s != "" && IsWhitespace(s[|s| - 1]) then TrimEnd(s[..|s| - 1]) else s
  {
    hide IsWhitespace;
  }

  lemma {:induction false} TextsAssociate(a: string, b: string, c: string)
    ensures a + (b + c) == (a + b) + c
  {
  }

  lemma {:induction false} NothingIsBlank()
    ensures Blank("")
  {
  }

  lemma {:induction false} EndIsBlank(s: string) returns (after: string)
    ensures Blank(after) && s == TrimEnd(s) + after
    decreases |s|
  {
    hide IsWhitespace, Blank, TrimEnd;
    TrimEndStep(s);
    if s != "" && IsWhitespace(s[|s| - 1]) {
      var front, last := s[..|s| - 1], [s[|s| - 1]];
      var more := EndIsBlank(front);
      after := more + last;
      BlankChar(s[|s| - 1]);
      BlankJoins(more, last);
      TextsAssociate(TrimEnd(s), more, last);
      assert s == front + last;
    } else {
      after := "";
      NothingIsBlank();
      assert s + "" == s;
    }
  }

  // ----- Numbers -----

  predicate Decimal(s: string) { s != "" && forall i | 0 <= i < |s| :: '0' <= s[i] <= '9' }

  /** The last digit counts one, and what stands before it ten times as much. */
  function DecimalValue(s: string): nat
    requires forall i | 0 <= i < |s| :: '0' <= s[i] <= '9'
  {
    if s == "" then 0
    else DecimalValue(s[..|s| - 1]) * 10 + (s[|s| - 1] as int - '0' as int)
  }

  /** A number in decimal, a plus sign before it or not. */
  predicate IsNumber(s: string, n: nat) {
    var digits := if s != "" && s[0] == '+' then s[1..] else s;
    Decimal(digits) && DecimalValue(digits) == n
  }

  lemma {:induction false} DigitsThenOne(s: string, d: char, acc: nat)
    ensures DigitsFrom(s + [d], 10, acc) ==
            match DigitsFrom(s, 10, acc)
            case Some(n) => if '0' <= d <= '9' then Some(n * 10 + (d as int - '0' as int)) else None
            case None => None
    decreases |s|
  {
    if s == "" {
      assert (s + [d])[1..] == "" && DigitsFrom("", 10, acc * 10 + DigitValue(d)) == Some(acc * 10 + DigitValue(d));
      assert DigitValue(d) < 10 <==> '0' <= d <= '9';
    } else {
      assert (s + [d])[1..] == s[1..] + [d];
      if DigitValue(s[0]) < 10 {
        DigitsThenOne(s[1..], d, acc * 10 + DigitValue(s[0]));
      }
    }
  }

  lemma {:induction false} DigitsAre(s: string)
    ensures DigitsFrom(s, 10, 0).Some? <==> forall i | 0 <= i < |s| :: '0' <= s[i] <= '9'
    ensures DigitsFrom(s, 10, 0).Some? ==> DigitsFrom(s, 10, 0).value == DecimalValue(s)
    decreases |s|
  {
    hide DigitsFrom;
    if s == "" {
      NoDigits();
    } else {
      var front, d := s[..|s| - 1], s[|s| - 1];
      DigitsAre(front);
      DigitsThenOne(front, d, 0);
      assert s == front + [d];
      assert forall i | 0 <= i < |front| :: front[i] == s[i];
    }
  }

  lemma {:induction false} NoDigits()
    ensures DigitsFrom("", 10, 0) == Some(0)
  {
  }

  /** A text parses as a number exactly if it spells one below the limit. */
  lemma {:induction false} ParseUnsignedIs(s: string, limit: nat, n: nat)
    ensures ParseUnsigned(s, 10, limit) == Some(n) <==> IsNumber(s, n) && n < limit
  {
    hide DigitsFrom, DecimalValue;
    DigitsAre(if s != "" && s[0] == '+' then s[1..] else s);
  }
}

/** Byte strings, and the substring search the response reader is built on. */
module Bytes {
  import opened Wrappers

  newtype byte = x: int | 0 <= x < 256

  type bytes = seq<byte>

  const CR: byte := 13
  const LF: byte := 10
  const CRLF: bytes := [CR, LF]
  const BLANK_LINE: bytes := [CR, LF, CR, LF]

  predicate At(hay: bytes, needle: bytes, i: nat) {
    i + |needle| <= |hay| && hay[i..i + |needle|] == needle
  }

  /** The first position of `needle`, when there is one. */
  function Find(hay: bytes, needle: bytes): (r: Option<nat>)
    requires needle != []
    ensures r.Some? ==> At(hay, needle, r.value) && forall j: nat | j < r.value :: !At(hay, needle, j)
    ensures r.None? ==> forall j: nat :: !At(hay, needle, j)
  {
    if |hay| < |needle| then
      None
    else if needle <= hay then
      assert At(hay, needle, 0);
      Some(0)
    else
      FindInTail(hay, needle);
      match Find(hay[1..], needle)
      case Some(i) => Some(i + 1)
      case None => None
  }

  lemma {:induction false} SliceOfTail(hay: bytes, lo: nat, hi: nat)
    requires lo <= hi < |hay|
    ensures hay[1..][lo..hi] == hay[lo + 1..hi + 1]
  {
  }

  lemma {:induction false} SliceOfPrefix(hay: bytes, n: nat, lo: nat, hi: nat)
    requires lo <= hi <= n <= |hay|
    ensures hay[..n][lo..hi] == hay[lo..hi]
  {
  }

  lemma {:induction false} SliceOfRest(text: bytes, more: bytes, lo: nat, hi: nat)
    requires |text| <= lo <= hi <= |text + more|
    ensures (text + more)[lo..hi] == more[lo - |text|..hi - |text|]
  {
  }

  lemma {:induction false} FindInTail(hay: bytes, needle: bytes)
    requires needle != [] && |hay| >= |needle| && !(needle <= hay)
    ensures !At(hay, needle, 0)
    ensures forall j: nat :: At(hay, needle, j + 1) <==> At(hay[1..], needle, j)
    ensures forall j: nat | j > 0 :: At(hay, needle, j) <==> At(hay[1..], needle, j - 1)
  {
    forall j: nat
      ensures At(hay, needle, j + 1) <==> At(hay[1..], needle, j)
    {
      if j + 1 + |needle| <= |hay| {
        SliceOfTail(hay, j, j + |needle|);
      }
    }
    forall j: nat | j > 0
      ensures At(hay, needle, j) <==> At(hay[1..], needle, j - 1)
    {
      assert At(hay, needle, (j - 1) + 1) <==> At(hay[1..], needle, j - 1);
    }
  }

  /** The position a search reports is the only first occurrence. */
  lemma {:induction false} FindIs(hay: bytes, needle: bytes, i: nat)
    requires needle != []
    requires At(hay, needle, i) && forall j: nat | j < i :: !At(hay, needle, j)
    ensures Find(hay, needle) == Some(i)
  {
  }

  /** Bytes that arrive later never move a match that is already there. */
  lemma {:induction false} FindExtends(hay: bytes, ext: bytes, needle: bytes)
    requires needle != [] && Find(hay, needle).Some?
    ensures Find(hay + ext, needle) == Find(hay, needle)
  {
    var i := Find(hay, needle).value;
    assert (hay + ext)[i..i + |needle|] == hay[i..i + |needle|];
    forall j: nat | j < i
      ensures !At(hay + ext, needle, j)
    {
      assert (hay + ext)[j..j + |needle|] == hay[j..j + |needle|];
      assert !At(hay, needle, j);
    }
    FindIs(hay + ext, needle, i);
  }

  /** A line with no CRLF in it, followed by CRLF, ends exactly there. */
  lemma {:induction false} FindLineEnd(line: bytes, rest: bytes)
    requires Find(line, CRLF).None?
    ensures Find(line + CRLF + rest, CRLF) == Some(|line|)
  {
    var hay := line + CRLF + rest;
    assert hay[|line|..|line| + 2] == CRLF;
    forall j: nat | j < |line|
      ensures !At(hay, CRLF, j)
    {
      if j + 1 < |line| {
        assert hay[j..j + 2] == line[j..j + 2];
        assert !At(line, CRLF, j);
      } else {
        assert hay[j..j + 2][1] == CR;
      }
    }
    FindIs(hay, CRLF, |line|);
  }

  /** Nothing shorter than the line and its whole CRLF shows a line end. */
  lemma {:induction false} NoLineEndYet(line: bytes, rest: bytes, n: nat)
    requires Find(line, CRLF).None? && n < |line| + 2
    ensures n <= |line + CRLF + rest|
    ensures Find((line + CRLF + rest)[..n], CRLF).None?
  {
    var hay := line + CRLF + rest;
    if Find(hay[..n], CRLF).Some? {
      FindExtends(hay[..n], hay[n..], CRLF);
      assert hay[..n] + hay[n..] == hay;
      FindLineEnd(line, rest);
    }
  }
}

/** How a head says where its entity ends, told field by field: section 6.3 of RFC 9112, as the reader takes it. */
module HttpFraming {
  import opened Wrappers
  import opened Text
  import opened TextLaws
  import opened HttpReader

  /** The first field of that name, in whatever case. */
  predicate FirstNamed(headers: seq<Header>, name: string, k: nat) {
    && k < |headers| && SameButForCase(headers[k].name, name)
    && forall j | 0 <= j < k :: !SameButForCase(headers[j].name, name)
  }

  predicate Unnamed(headers: seq<Header>, name: string) {
    forall j | 0 <= j < |headers| :: !SameButForCase(headers[j].name, name)
  }

  /** One of the codings between the commas is `chunked`. */
  ghost predicate ListsChunked(codings: string) {
    exists item, coding :: ItemOf(codings, item) && TrimmedOf(item, coding) && SameButForCase(coding, "chunked")
  }

  ghost predicate StatesLength(value: string, n: nat) {
    exists digits :: TrimmedOf(value, digits) && IsNumber(digits, n) && n < USIZE_LIMIT
  }

  /** What the fields of a response say, or the error they are. */
  ghost predicate HasFraming(status: nat, headers: seq<Header>, r: Result<Framing, Malformed>) {
    if status == 204 || status == 304 || 100 <= status <= 199 then r == Ok(Length(0))
    else
      && (forall k: nat | FirstNamed(headers, "Transfer-Encoding", k) ::
            r == if ListsChunked(headers[k].value) then Ok(Chunked) else Err(TransferEncoding))
      && (Unnamed(headers, "Transfer-Encoding") ==>
            && (forall k: nat | FirstNamed(headers, "Content-Length", k) ::
                  && (forall n: nat :: r == Ok(Length(n)) <==> StatesLength(headers[k].value, n))
                  && (r.Ok? ==> r.value.Length?) && (r.Err? ==> r.error == ContentLength))
            && (Unnamed(headers, "Content-Length") ==> r == Ok(UntilClose)))
  }

  lemma {:induction false} LookupIs(headers: seq<Header>, name: string) returns (k: nat)
    ensures if Lookup(headers, name).Some?
            then FirstNamed(headers, name, k) && Lookup(headers, name).value == headers[k].value
            else Unnamed(headers, name)
    decreases |headers|
  {
    hide SameButForCase, EqIgnoreAsciiCase;
    k := 0;
    if headers != [] {
      IgnoringCaseIs(headers[0].name, name);
      if !SameButForCase(headers[0].name, name) {
        var rest := LookupIs(headers[1..], name);
        k := rest + 1;
        assert forall j | 1 <= j < |headers| :: headers[j] == headers[1..][j - 1];
      }
    }
  }

  lemma {:induction false} OnlyOneIsFirst(headers: seq<Header>, name: string, k: nat)
    requires FirstNamed(headers, name, k)
    ensures k < |headers| && !Unnamed(headers, name)
    ensures forall j: nat | FirstNamed(headers, name, j) :: j == k
  {
    hide SameButForCase;
  }

  lemma {:induction false} NamesChunkedIs(codings: string)
    ensures NamesChunked(codings) <==> ListsChunked(codings)
  {
    hide Split, Trim, EqIgnoreAsciiCase, SameButForCase, ItemOf, TrimmedOf;
    forall item
      ensures item in Split(codings, ',') <==> ItemOf(codings, item)
      ensures EqIgnoreAsciiCase(Trim(item), "chunked") <==> SameButForCase(Trim(item), "chunked")
    {
      SplitIs(codings, item);
      IgnoringCaseIs(Trim(item), "chunked");
    }
    forall item, coding
      ensures TrimmedOf(item, coding) <==> Trim(item) == coding
    {
      TrimIs(item, coding);
    }
    if NamesChunked(codings) {
      var item :| item in Split(codings, ',') && EqIgnoreAsciiCase(Trim(item), "chunked");
      assert ItemOf(codings, item) && TrimmedOf(item, Trim(item)) && SameButForCase(Trim(item), "chunked");
    }
  }

  lemma {:induction false} LengthIs(value: string, n: nat)
    ensures ParseUnsigned(Trim(value), 10, USIZE_LIMIT) == Some(n) <==> StatesLength(value, n)
  {
    hide Trim, ParseUnsigned, TrimmedOf, IsNumber;
    ParseUnsignedIs(Trim(value), USIZE_LIMIT, n);
    TrimIs(value, Trim(value));
    forall digits | TrimmedOf(value, digits)
      ensures digits == Trim(value)
    {
      TrimIs(value, digits);
    }
  }

  /** The framing the reader takes is the one the fields state, and the only one. */
  lemma {:induction false} FramingIs(status: nat, headers: seq<Header>, r: Result<Framing, Malformed>)
    ensures HasFraming(status, headers, r) <==> r == FramingOf(status, headers)
  {
    hide Lookup, NamesChunked, ParseUnsigned, Trim, FirstNamed, Unnamed, ListsChunked, StatesLength;
    var k := LookupIs(headers, "Transfer-Encoding");
    if Lookup(headers, "Transfer-Encoding").Some? {
      OnlyOneIsFirst(headers, "Transfer-Encoding", k);
      NamesChunkedIs(headers[k].value);
    } else {
      NoneIsFirst(headers, "Transfer-Encoding");
      var l := LookupIs(headers, "Content-Length");
      if Lookup(headers, "Content-Length").Some? {
        OnlyOneIsFirst(headers, "Content-Length", l);
        forall n: nat
          ensures ParseUnsigned(Trim(headers[l].value), 10, USIZE_LIMIT) == Some(n)
                  <==> StatesLength(headers[l].value, n)
        {
          LengthIs(headers[l].value, n);
        }
      } else {
        NoneIsFirst(headers, "Content-Length");
      }
    }
  }

  lemma {:induction false} NoneIsFirst(headers: seq<Header>, name: string)
    requires Unnamed(headers, name)
    ensures forall k: nat :: !FirstNamed(headers, name, k)
  {
    hide SameButForCase;
  }
}

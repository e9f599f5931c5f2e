/**
 Registration on the printer's shared, lease-less collection: sweep, count, add. The printer
 answers, loses answers and refuses as it likes, other hosts come and go between any two requests,
 and this process may die at any of them.
 */
module Walkup {
  import opened Wrappers
  import opened Text
  import opened XmlPairing
  import opened Sets
  import opened TextLaws

  // ----- The collection -----

  function Own(entries: seq<Destination>, name: string): (own: seq<Destination>)
    ensures forall e :: e in own <==> e in entries && e.RegisteredBy(name)
  {
    if entries == [] then []
    else (if entries[0].RegisteredBy(name) then [entries[0]] else []) + Own(entries[1..], name)
  }

  function Foreign(entries: seq<Destination>, name: string): (foreign: seq<Destination>)
    ensures forall e :: e in foreign <==> e in entries && !e.RegisteredBy(name)
  {
    if entries == [] then []
    else (if entries[0].RegisteredBy(name) then [] else [entries[0]]) + Foreign(entries[1..], name)
  }

  function Without(entries: seq<Destination>, uri: string): (left: seq<Destination>)
    ensures forall e :: e in left <==> e in entries && e.uri != uri
    ensures Distinct(entries) ==> Distinct(left)
  {
    if entries == [] then []
    else
      var rest := Without(entries[1..], uri);
      if entries[0].uri == uri then rest else
        assert Distinct(entries) ==> Distinct(entries[1..]);
        [entries[0]] + rest
  }

  predicate Distinct(entries: seq<Destination>) {
    forall i, j | 0 <= i < j < |entries| :: entries[i].uri != entries[j].uri
  }

  function Uris(entries: seq<Destination>): set<string> { set e | e in entries :: e.uri }

  /** The entries of this host, by URI; no two entries share one. */
  function OwnUris(entries: seq<Destination>, name: string): set<string> { Uris(Own(entries, name)) }

  /** The entry carries a host name, and this one but for the case of its letters. */
  predicate BearsName(e: Destination, name: string) { e.hostname != "" && SameButForCase(e.hostname, name) }

  /** Whose an entry is, character by character. */
  lemma {:induction false} RegisteredByIs(e: Destination, name: string)
    ensures e.RegisteredBy(name) <==> BearsName(e, name)
  {
    hide EqIgnoreAsciiCase, SameButForCase;
    IgnoringCaseIs(e.hostname, name);
  }

  /** This host's entries of a collection are those that bear its name, in their order. */
  lemma {:induction false} OwnIs(entries: seq<Destination>, name: string)
    ensures forall e :: e in Own(entries, name) <==> e in entries && BearsName(e, name)
    ensures forall e :: e in Foreign(entries, name) <==> e in entries && !BearsName(e, name)
  {
    hide Own, Foreign, BearsName;
    forall e: Destination
      ensures e.RegisteredBy(name) <==> BearsName(e, name)
    {
      RegisteredByIs(e, name);
    }
  }

  lemma {:induction false} NoneOwn(entries: seq<Destination>, name: string)
    ensures (forall e | e in entries :: !BearsName(e, name)) ==> Own(entries, name) == []
  {
    hide BearsName;
    OwnIs(entries, name);
    if Own(entries, name) != [] {
      assert Own(entries, name)[0] in Own(entries, name);
    }
  }

  lemma {:induction false} OnlyItsOwn(entries: set<Destination>, name: string)
    requires forall e | e in entries :: e.RegisteredBy(name)
    ensures forall e | e in entries :: BearsName(e, name)
  {
    hide BearsName;
    forall e | e in entries
      ensures BearsName(e, name)
    {
      RegisteredByIs(e, name);
    }
  }

  lemma {:induction false} OwnAndForeignAreAll(entries: seq<Destination>, name: string)
    ensures |Own(entries, name)| + |Foreign(entries, name)| == |entries|
    decreases |entries|
  {
    if entries != [] {
      OwnAndForeignAreAll(entries[1..], name);
    }
  }

  lemma {:induction false} OwnIsDistinct(entries: seq<Destination>, name: string)
    requires Distinct(entries)
    ensures Distinct(Own(entries, name))
    decreases |entries|
  {
    if entries != [] {
      OwnIsDistinct(entries[1..], name);
      forall e | e in Own(entries[1..], name)
        ensures e.uri != entries[0].uri
      {
        assert e in entries[1..];
        var k :| 0 < k < |entries| && entries[k] == e;
      }
    }
  }

  /** What other hosts, and people at the panel, may have done since this host last looked. */
  predicate OthersLeft(before: seq<Destination>, used: set<string>, after: seq<Destination>, name: string) {
    && Distinct(after)
    && forall e | e in after :: e in before || (!e.RegisteredBy(name) && e.uri !in used)
  }

  // ----- The wire -----

  /** What one request comes back with. `Died` is this process ending with the request out. */
  datatype Reply<+T> = Status(code: nat, entity: T) | NoReply | Died

  datatype WalkupError = Unreachable | Refused(status: nat) | Malformed | Full(limit: nat) | ProcessDied

  /** Insists on one of the expected statuses. */
  function Expect<T>(reply: Reply<T>, expected: set<nat>): (r: Result<Reply<T>, WalkupError>)
    ensures r.Ok? ==> r.value == reply && reply.Status? && reply.code in expected
  {
    match reply
    case NoReply => Err(Unreachable)
    case Died => Err(ProcessDied)
    case Status(code, _) => if code in expected then Ok(reply) else Err(Refused(code))
  }

  const OK: nat := 200
  const CREATED: nat := 201
  const NO_CONTENT: nat := 204
  const NOT_FOUND: nat := 404

  predicate Readable<T>(reply: Reply<Option<T>>) {
    reply.Status? && reply.code == OK && reply.entity.Some?
  }

  predicate Gone<T>(reply: Reply<T>) {
    reply.Status? && reply.code in {OK, NO_CONTENT, NOT_FOUND}
  }

  predicate Located<T>(reply: Reply<Option<T>>) {
    reply.Status? && reply.code == CREATED && reply.entity.Some?
  }

  /** Which answers are taken for success: any of three to a DELETE, one each to a GET and a POST. */
  lemma {:induction false} AnswersAre(code: nat, gone: Reply<()>, listed: Reply<Option<seq<Destination>>>)
    ensures Gone(gone) <==> gone.Status? && (gone.code == 200 || gone.code == 204 || gone.code == 404)
    ensures Readable(listed) <==> listed.Status? && listed.code == 200 && listed.entity.Some?
    ensures Located(listed) <==> listed.Status? && listed.code == 201 && listed.entity.Some?
    ensures Expect(gone, {200, 204, 404}).Ok? <==> Gone(gone)
    ensures gone == Status(code, ()) && !Gone(gone) ==> Expect(gone, {200, 204, 404}) == Err(Refused(code))
    ensures Expect<()>(NoReply, {200}) == Err(Unreachable) && Expect<()>(Died, {200}) == Err(ProcessDied)
  {
  }

  /** What `WalkupScanToCompCaps` comes back with: a limit, if the document could be read and states one. */
  type Capabilities = Reply<Option<Option<nat>>>

  /** The answer of a printer that serves no collection at all. */
  predicate HasNoPanel(caps: Capabilities) { caps.Status? && caps.code == NOT_FOUND }

  /** What a caller is told when the capabilities are neither readable nor absent. */
  function CapabilitiesError(caps: Capabilities): WalkupError {
    match caps
    case NoReply => Unreachable
    case Died => ProcessDied
    case Status(code, _) => if code == OK then Malformed else Refused(code)
  }

  /** One printer. The ghost fields record what was done to it, for the statements below. */
  class Printer {
    var entries: seq<Destination>
    /** Every URI ever given out: none is given twice. */
    var used: set<string>
    /** How many documents this host posted. */
    ghost var posts: nat
    /** The entries this host's own requests removed. */
    ghost var taken: set<Destination>
    /** How many of its requests did not get the answer they need. */
    ghost var failures: nat

    ghost predicate Valid()
      reads this
    {
      Distinct(entries) && Uris(entries) <= used
    }

    constructor (entries: seq<Destination>)
      requires Distinct(entries)
      ensures Valid() && this.entries == entries && posts == 0 && taken == {} && failures == 0
    {
      this.entries := entries;
      used := Uris(entries);
      posts, taken, failures := 0, {}, 0;
    }

    /** Anything the rest of the world does between two of this host's requests. */
    method OthersAct(name: string)
      requires Valid()
      modifies this
      ensures Valid() && old(used) <= used
      ensures OthersLeft(old(entries), old(used), entries, name)
      ensures posts == old(posts) && taken == old(taken) && failures == old(failures)
    {
      var next: seq<Destination> := *;
      if OthersLeft(entries, used, next, name) {
        entries := next;
        used := used + Uris(next);
      }
    }

    /** The collection as the printer lists it, `None` when the document cannot be read. */
    method Get(name: string) returns (reply: Reply<Option<seq<Destination>>>)
      requires Valid()
      modifies this
      ensures Valid() && old(used) <= used
      ensures OthersLeft(old(entries), old(used), entries, name)
      ensures Readable(reply) ==> reply.entity.value == entries
      ensures posts == old(posts) && taken == old(taken)
      ensures failures == old(failures) + (if Readable(reply) then 0 else 1)
    {
      OthersAct(name);
      var fate: Reply<bool> := *;
      match fate {
        case Status(code, readable) => reply := Status(code, if readable then Some(entries) else None);
        case NoReply => reply := NoReply;
        case Died => reply := Died;
      }
      failures := failures + (if Readable(reply) then 0 else 1);
    }

    /** A success, or a 404, means the entry is not there; any other fate may or may not have removed it. */
    method Delete(name: string, uri: string) returns (reply: Reply<()>)
      requires Valid() && uri in used
      modifies this
      ensures Valid() && old(used) <= used
      ensures OthersLeft(old(entries), old(used), entries, name)
      ensures Gone(reply) ==> uri !in Uris(entries)
      ensures posts == old(posts)
      ensures failures == old(failures) + (if Gone(reply) then 0 else 1)
      ensures old(taken) <= taken && forall e | e in taken - old(taken) :: e.uri == uri && e in old(entries)
    {
      OthersAct(name);
      var fate: Reply<()> := *;
      var done: bool := *;
      reply := if fate.Status? && fate.code == NOT_FOUND && uri in Uris(entries) then NoReply else fate;
      if done || (reply.Status? && reply.code in {OK, NO_CONTENT}) {
        taken := taken + set e | e in entries && e.uri == uri;
        entries := Without(entries, uri);
      }
      failures := failures + (if Gone(reply) then 0 else 1);
    }

    /** A 201 means the entry is there, under a URI of its own that `Location` names if it is sent. */
    method Post(name: string)
      returns (reply: Reply<Option<string>>, ghost between: seq<Destination>, ghost created: string)
      requires Valid()
      modifies this
      ensures Valid() && old(used) <= used
      ensures posts == old(posts) + 1 && taken == old(taken)
      ensures failures == old(failures) + (if Located(reply) then 0 else 1)
      ensures OthersLeft(old(entries), old(used), between, name)
      ensures entries == between || (entries == between + [Destination(created, name)] && created !in old(used))
      ensures reply.Status? && reply.code == CREATED
              ==> entries == between + [Destination(created, name)] && reply.entity in {None, Some(created)}
    {
      OthersAct(name);
      between := entries;
      var uri: string := *;
      var fate: Reply<bool> := *;
      var done: bool := *;
      done := (done || (fate.Status? && fate.code == CREATED)) && uri !in used;
      created := uri;
      if done {
        entries := entries + [Destination(uri, name)];
        used := used + {uri};
      }
      match fate {
        case Status(code, located) =>
          reply := if code == CREATED && !done then NoReply else Status(code, if located then Some(uri) else None);
        case NoReply => reply := NoReply;
        case Died => reply := Died;
      }
      posts := posts + 1;
      failures := failures + (if Located(reply) then 0 else 1);
    }

    /** `WalkupScanToCompCaps`: the published limit, if the document carries one. */
    method GetCapabilities(caps: Capabilities) returns (reply: Capabilities)
      ensures reply == caps
    {
      reply := caps;
    }
  }

  // ----- The protocol -----

  datatype Registration = Registration(uri: string, swept: seq<Destination>)

  lemma {:induction false} OthersLeftTwice(
    a: seq<Destination>, used: set<string>, b: seq<Destination>, used': set<string>, c: seq<Destination>,
    name: string)
    requires used <= used' && OthersLeft(a, used, b, name) && OthersLeft(b, used', c, name)
    ensures OthersLeft(a, used, c, name)
  {
  }

  /** The listing still tells whose entry a URI is, for the URIs it holds. */
  ghost predicate StillTrue(listing: seq<Destination>, entries: seq<Destination>, used: set<string>) {
    Uris(listing) <= used && forall d, e | d in listing && e in entries && d.uri == e.uri :: d == e
  }

  /** Every entry of this host is one the list still has to come to. */
  ghost predicate AllIn(entries: seq<Destination>, todo: seq<Destination>, name: string) {
    forall e | e in entries && e.RegisteredBy(name) :: e in todo
  }

  lemma {:induction false} OwnCons(entries: seq<Destination>, name: string)
    ensures Own([], name) == []
    ensures entries != [] ==>
      Own(entries, name) == (if entries[0].RegisteredBy(name) then [entries[0]] else []) + Own(entries[1..], name)
  {
  }

  /** Once the first of the list is gone by its URI, the rest of the list covers what is left. */
  lemma {:induction false} OneFewer(
    before: seq<Destination>, used: set<string>, after: seq<Destination>, todo: seq<Destination>, name: string)
    requires todo != [] && AllIn(before, todo, name)
    requires OthersLeft(before, used, after, name) && todo[0].uri !in Uris(after)
    ensures AllIn(after, todo[1..], name)
  {
    hide EqIgnoreAsciiCase;
    forall e | e in after && e.RegisteredBy(name)
      ensures e in todo[1..]
    {
      assert e in before && e.uri in Uris(after);
    }
  }

  lemma {:induction false} NoneLeft(entries: seq<Destination>, name: string)
    requires AllIn(entries, [], name)
    ensures OwnUris(entries, name) == {}
  {
    hide EqIgnoreAsciiCase;
  }

  /** The walk-up client for one printer. */
  class Walkup {
    const printer: Printer

    constructor (printer: Printer)
      ensures this.printer == printer
    {
      this.printer := printer;
    }

    /** Delete one entry; finding it already gone counts as success. */
    method Remove(name: string, uri: string) returns (r: Result<(), WalkupError>)
      requires printer.Valid() && uri in printer.used
      modifies printer
      ensures printer.Valid() && old(printer.used) <= printer.used && printer.posts == old(printer.posts)
      ensures OthersLeft(old(printer.entries), old(printer.used), printer.entries, name)
      ensures r.Ok? ==> uri !in Uris(printer.entries) && printer.failures == old(printer.failures)
      ensures r.Err? ==> !r.error.Full? && printer.failures > old(printer.failures)
      ensures old(printer.taken) <= printer.taken
      ensures forall e | e in printer.taken - old(printer.taken) :: e.uri == uri && e in old(printer.entries)
    {
      var reply := printer.Delete(name, uri);
      match Expect(reply, {OK, NO_CONTENT, NOT_FOUND}) {
        case Ok(_) => return Ok(());
        case Err(e) => return Err(e);
      }
    }

    method Destinations(name: string) returns (r: Result<seq<Destination>, WalkupError>)
      requires printer.Valid()
      modifies printer
      ensures printer.Valid() && old(printer.used) <= printer.used
      ensures OthersLeft(old(printer.entries), old(printer.used), printer.entries, name)
      ensures r.Ok? ==> r.value == printer.entries && printer.failures == old(printer.failures)
      ensures r.Err? ==> !r.error.Full? && printer.failures > old(printer.failures)
      ensures printer.posts == old(printer.posts) && printer.taken == old(printer.taken)
    {
      var reply := printer.Get(name);
      match Expect(reply, {OK}) {
        case Ok(_) => return if reply.entity.Some? then Ok(reply.entity.value) else Err(Malformed);
        case Err(e) => return Err(e);
      }
    }

    /** The sweep: every entry of the listing that `name` registered, and the first failure ends it. */
    method RemoveAll(name: string, occupied: seq<Destination>) returns (r: Result<seq<Destination>, WalkupError>)
      requires printer.Valid() && StillTrue(occupied, printer.entries, printer.used)
      requires AllIn(printer.entries, occupied, name)
      modifies printer
      ensures printer.Valid() && old(printer.used) <= printer.used && printer.posts == old(printer.posts)
      ensures OthersLeft(old(printer.entries), old(printer.used), printer.entries, name)
      ensures r.Ok? ==> r.value == Own(occupied, name) && OwnUris(printer.entries, name) == {}
      ensures r.Ok? ==> printer.failures == old(printer.failures)
      ensures r.Err? ==> !r.error.Full? && printer.failures > old(printer.failures)
      ensures old(printer.taken) <= printer.taken
      ensures forall e | e in printer.taken - old(printer.taken) :: e.RegisteredBy(name)
      ensures forall e | e in printer.taken - old(printer.taken) :: BearsName(e, name)
      ensures r.Ok? ==> forall e :: e in r.value <==> e in occupied && BearsName(e, name)
      ensures (forall e | e in occupied :: !BearsName(e, name)) ==> r == Ok([]) && printer.taken == old(printer.taken)
    {
      hide Own, Foreign, Distinct, BearsName, EqIgnoreAsciiCase, OthersLeft, StillTrue, AllIn;
      NoneOwn(occupied, name);
      OwnIs(occupied, name);
      r := Sweep(name, occupied);
      OnlyItsOwn(printer.taken - old(printer.taken), name);
    }

    /** Its loop over the listing. */
    method Sweep(name: string, occupied: seq<Destination>) returns (r: Result<seq<Destination>, WalkupError>)
      requires printer.Valid() && StillTrue(occupied, printer.entries, printer.used)
      requires AllIn(printer.entries, occupied, name)
      modifies printer
      ensures printer.Valid() && old(printer.used) <= printer.used && printer.posts == old(printer.posts)
      ensures OthersLeft(old(printer.entries), old(printer.used), printer.entries, name)
      ensures r.Ok? ==> r.value == Own(occupied, name) && OwnUris(printer.entries, name) == {}
      ensures r.Ok? ==> printer.failures == old(printer.failures)
      ensures r.Err? ==> !r.error.Full? && printer.failures > old(printer.failures)
      ensures old(printer.taken) <= printer.taken
      ensures forall e | e in printer.taken - old(printer.taken) :: e.RegisteredBy(name)
      ensures Own(occupied, name) == [] ==> r == Ok([]) && printer.taken == old(printer.taken)
    {
      hide Own, Distinct, EqIgnoreAsciiCase;
      var swept: seq<Destination> := [];
      var i := 0;
      OwnCons([], name);
      assert occupied[0..] == occupied;
      while i < |occupied|
        invariant 0 <= i <= |occupied|
        invariant printer.Valid() && old(printer.used) <= printer.used && printer.posts == old(printer.posts)
        invariant OthersLeft(old(printer.entries), old(printer.used), printer.entries, name)
        invariant StillTrue(occupied, printer.entries, printer.used)
        invariant AllIn(printer.entries, occupied[i..], name)
        invariant swept + Own(occupied[i..], name) == Own(occupied, name)
        invariant printer.failures == old(printer.failures)
        invariant old(printer.taken) <= printer.taken
        invariant forall e | e in printer.taken - old(printer.taken) :: e.RegisteredBy(name)
        invariant Own(occupied, name) == [] ==> printer.taken == old(printer.taken)
      {
        var destination := occupied[i];
        OwnCons(occupied[i..], name);
        assert occupied[i..][1..] == occupied[i + 1..];
        ghost var before, used := printer.entries, printer.used;
        if destination.RegisteredBy(name) {
          assert destination.uri in Uris(occupied);
          var removed := Remove(name, destination.uri);
          OthersLeftTwice(old(printer.entries), old(printer.used), before, used, printer.entries, name);
          if removed.Err? {
            return Err(removed.error);
          }
          OneFewer(before, used, printer.entries, occupied[i..], name);
          swept := swept + [destination];
        }
        i := i + 1;
      }
      assert occupied[i..] == [];
      NoneLeft(printer.entries, name);
      return Ok(swept);
    }

    /**
     Sweep, count what is left, add. `listing` is the collection as the one GET of this call saw it.
     Exactly one of three things happened, told apart by whether a request failed and by whether the
     foreign entries alone reach a published limit.
     */
    method Register(name: string, limit: Option<nat>)
      returns (r: Result<Registration, WalkupError>, ghost listing: seq<Destination>)
      requires printer.Valid()
      modifies printer
      ensures printer.Valid() && old(printer.used) <= printer.used
      ensures var own := OwnUris(printer.entries, name);
              own <= OwnUris(old(printer.entries), name) || |own| <= 1
      ensures old(printer.taken) <= printer.taken
      ensures forall e | e in printer.taken - old(printer.taken) :: e.RegisteredBy(name)
      ensures forall e | e in printer.taken - old(printer.taken) :: BearsName(e, name)
      ensures r.Ok? ==> OwnUris(printer.entries, name) == (if name == "" then {} else {r.value.uri})
      ensures r.Ok? ==> Destination(r.value.uri, name) in printer.entries && r.value.swept == Own(listing, name)
      ensures forall e | e in printer.entries :: e in old(printer.entries) || e.uri !in old(printer.used)
      ensures r.Ok? <==> printer.failures == old(printer.failures) && !Reached(limit, listing, name)
      ensures r.Err? && r.error.Full? <==> printer.failures == old(printer.failures) && Reached(limit, listing, name)
      ensures r.Err? && r.error.Full? ==> r.error.limit == limit.value && OwnUris(printer.entries, name) == {}
      ensures r.Err? && r.error.Full? ==> printer.posts == old(printer.posts)
      ensures printer.posts <= old(printer.posts) + 1
      ensures r.Ok? || r.error.Full? ==> OthersLeft(old(printer.entries), old(printer.used), listing, name)
      ensures r.Ok? && limit.Some? && name != "" && |Foreign(printer.entries, name)| <= |Foreign(listing, name)|
              ==> |printer.entries| <= limit.value
    {
      hide BearsName, SameButForCase, EqIgnoreAsciiCase, Own, Foreign;
      listing := [];
      var occupied := Destinations(name);
      if occupied.Err? {
        OwnOnlyShrinks(old(printer.entries), old(printer.used), printer.entries, name);
        return Err(occupied.error), listing;
      }
      listing := occupied.value;
      ghost var used1 := printer.used;
      var swept := RemoveAll(name, occupied.value);
      OthersLeftTwice(old(printer.entries), old(printer.used), listing, used1, printer.entries, name);
      OwnOnlyShrinks(old(printer.entries), old(printer.used), printer.entries, name);
      if swept.Err? {
        return Err(swept.error), listing;
      }
      OwnAndForeignAreAll(listing, name);
      if limit.Some? && |occupied.value| - |swept.value| >= limit.value {
        return Err(Full(limit.value)), listing;
      }
      ghost var clear := printer.entries;
      ghost var used2 := printer.used;
      var reply, between, created := printer.Post(name);
      OwnOnlyShrinks(clear, used2, between, name);
      OwnAfterPost(between, name, created);
      match Expect(reply, {CREATED}) {
        case Err(e) => return Err(e), listing;
        case Ok(_) =>
          if reply.entity.None? {
            return Err(Malformed), listing;
          }
          OwnAndForeignAreAll(printer.entries, name);
          OwnIsDistinct(printer.entries, name);
          AllOneUri(Own(printer.entries, name), reply.entity.value);
          return Ok(Registration(reply.entity.value, swept.value)), listing;
      }
    }
  }

  /** The entries other hosts keep already fill a collection whose size is published. */
  predicate Reached(limit: Option<nat>, listing: seq<Destination>, name: string) {
    limit.Some? && |Foreign(listing, name)| >= limit.value
  }

  lemma {:induction false} OwnOnlyShrinks(
    before: seq<Destination>, used: set<string>, after: seq<Destination>, name: string)
    requires OthersLeft(before, used, after, name)
    ensures OwnUris(after, name) <= OwnUris(before, name)
  {
    forall u | u in OwnUris(after, name)
      ensures u in OwnUris(before, name)
    {
      var e :| e in Own(after, name) && e.uri == u;
      assert e in Own(before, name);
    }
  }

  lemma {:induction false} NoUrisNoEntries(entries: seq<Destination>)
    ensures Uris(entries) == {} ==> entries == []
  {
    if entries != [] {
      assert entries[0].uri in Uris(entries);
    }
  }

  lemma {:induction false} OwnAppend(a: seq<Destination>, b: seq<Destination>, name: string)
    ensures Own(a + b, name) == Own(a, name) + Own(b, name)
    decreases |a|
  {
    hide EqIgnoreAsciiCase;
    if a == [] {
      assert a + b == b;
    } else {
      assert (a + b)[1..] == a[1..] + b;
      OwnAppend(a[1..], b, name);
    }
  }

  lemma {:induction false} OwnAfterPost(between: seq<Destination>, name: string, created: string)
    requires OwnUris(between, name) == {}
    ensures OwnUris(between + [Destination(created, name)], name) == if name == "" then {} else {created}
  {
    NoUrisNoEntries(Own(between, name));
    OwnAppend(between, [Destination(created, name)], name);
    assert [Destination(created, name)][1..] == [];
  }

  /** Counting URIs is counting entries. */
  lemma {:induction false} UrisCountEntries(entries: seq<Destination>)
    requires Distinct(entries)
    ensures |Uris(entries)| == |entries|
    decreases |entries|
  {
    if entries != [] {
      var rest := entries[1..];
      assert entries == [entries[0]] + rest;
      assert Uris(entries) == {entries[0].uri} + Uris(rest);
      assert entries[0].uri !in Uris(rest);
      UrisCountEntries(rest);
    }
  }

  lemma {:induction false} AllOneUri(own: seq<Destination>, uri: string)
    requires Distinct(own) && Uris(own) <= {uri}
    ensures |own| <= 1
  {
    UrisCountEntries(own);
    SmallerUnlessEqual(Uris(own), {uri});
  }

  /** A machine's entry is swept by another exactly if their names, without domains, differ in case at most. */
  lemma {:induction false} NamesakesSweepEachOther(hostname: string, other: string, uri: string)
    ensures Own([Destination(uri, PanelName(other))], PanelName(hostname)) == [Destination(uri, PanelName(other))]
            <==> SameButForCase(PanelName(other), PanelName(hostname))
  {
    hide PanelName, SameButForCase, EqIgnoreAsciiCase;
    OwnCons([Destination(uri, PanelName(other))], PanelName(hostname));
    IgnoringCaseIs(PanelName(other), PanelName(hostname));
  }

  // ----- Whole runs -----

  /** What can happen to one scanner, in any order and any number of times. */
  datatype Happening = Connect | Disconnect | OthersOnly | Restart

  /** The backend's side: the URI of the entry it put there, which does not outlive the process. */
  class HpBackend {
    const walkup: Walkup
    var recorded: Option<string>

    constructor (walkup: Walkup)
      ensures this.walkup == walkup && recorded == None
    {
      this.walkup := walkup;
      recorded := None;
    }

    /** A recorded URI is one the printer gave out, and whatever is listed under it is this host's. */
    ghost predicate Valid(name: string)
      reads this, walkup.printer
    {
      && walkup.printer.Valid()
      && (recorded.Some? ==>
            && recorded.value in walkup.printer.used
            && forall e | e in walkup.printer.entries && e.uri == recorded.value :: e.RegisteredBy(name))
    }

    /**
     Capabilities first, and nothing else is asked of a printer that has none. `caps` is its answer to that,
     `listing` the collection as the registration saw it.
     */
    method Install(name: string, caps: Capabilities)
      returns (r: Result<Option<Registration>, WalkupError>, ghost listing: seq<Destination>)
      requires Valid(name) && name != ""
      modifies walkup.printer
      ensures Valid(name)
      ensures OwnBounded(old(walkup.printer.entries), walkup.printer.entries, name)
      ensures old(walkup.printer.taken) <= walkup.printer.taken
      ensures forall e | e in walkup.printer.taken - old(walkup.printer.taken) :: e.RegisteredBy(name)
      ensures r == Ok(None) <==> HasNoPanel(caps)
      ensures !Readable(caps) ==>
                && (HasNoPanel(caps) || r == Err(CapabilitiesError(caps)))
                && walkup.printer.entries == old(walkup.printer.entries)
                && walkup.printer.posts == old(walkup.printer.posts)
                && walkup.printer.taken == old(walkup.printer.taken)
      ensures Readable(caps) ==>
                var limit := caps.entity.value;
                && (r.Ok? <==>
                      walkup.printer.failures == old(walkup.printer.failures) && !Reached(limit, listing, name))
                && (r.Err? && r.error.Full? <==>
                      walkup.printer.failures == old(walkup.printer.failures) && Reached(limit, listing, name))
                && walkup.printer.posts <= old(walkup.printer.posts) + 1
                && (r.Ok? || r.error.Full? ==>
                      OthersLeft(old(walkup.printer.entries), old(walkup.printer.used), listing, name))
      ensures r.Ok? && r.value.Some? ==>
                && Destination(r.value.value.uri, name) in walkup.printer.entries
                && OwnUris(walkup.printer.entries, name) == {r.value.value.uri}
                && r.value.value.swept == Own(listing, name)
    {
      listing := [];
      var reply := walkup.printer.GetCapabilities(caps);
      match Expect(reply, {OK, NOT_FOUND}) {
        case Err(e) => return Err(e), listing;
        case Ok(_) =>
          if reply.code == NOT_FOUND {
            return Ok(None), listing;
          }
          if reply.entity.None? {
            return Err(Malformed), listing;
          }
          ghost var before := OwnUris(walkup.printer.entries, name);
          var registered;
          registered, listing := walkup.Register(name, reply.entity.value);
          if OwnUris(walkup.printer.entries, name) <= before {
            SmallerUnlessEqual(OwnUris(walkup.printer.entries, name), before);
          }
          match registered {
            case Ok(registration) => return Ok(Some(registration)), listing;
            case Err(e) => return Err(e), listing;
          }
      }
    }

    /**
     Success is a printer without a panel, or one entry of this host on it, its URI kept; an error changes
     nothing kept.
     */
    method RegisterOnPanel(name: string, caps: Capabilities)
      returns (r: Result<(), WalkupError>, ghost listing: seq<Destination>)
      requires Valid(name) && name != ""
      modifies this, walkup.printer
      ensures Valid(name)
      ensures OwnBounded(old(walkup.printer.entries), walkup.printer.entries, name)
      ensures old(walkup.printer.taken) <= walkup.printer.taken
      ensures forall e | e in walkup.printer.taken - old(walkup.printer.taken) :: e.RegisteredBy(name)
      ensures r.Ok? <==>
                || HasNoPanel(caps)
                || (Readable(caps) && walkup.printer.failures == old(walkup.printer.failures)
                    && !Reached(caps.entity.value, listing, name))
      ensures r.Err? || HasNoPanel(caps) ==> recorded == old(recorded)
      ensures !Readable(caps) && !HasNoPanel(caps) ==> r == Err(CapabilitiesError(caps))
      ensures Readable(caps) && (r.Ok? || r.error.Full?) ==>
                OthersLeft(old(walkup.printer.entries), old(walkup.printer.used), listing, name)
      ensures Readable(caps) ==>
                (r.Err? && r.error.Full? <==>
                   walkup.printer.failures == old(walkup.printer.failures)
                   && Reached(caps.entity.value, listing, name))
      ensures !Readable(caps) ==>
                && walkup.printer.entries == old(walkup.printer.entries)
                && walkup.printer.posts == old(walkup.printer.posts)
                && walkup.printer.taken == old(walkup.printer.taken)
      ensures r.Ok? && Readable(caps) ==>
                && recorded.Some? && OwnUris(walkup.printer.entries, name) == {recorded.value}
                && Destination(recorded.value, name) in walkup.printer.entries
    {
      var installed;
      installed, listing := Install(name, caps);
      match installed {
        case Err(e) => return Err(e), listing;
        case Ok(None) => return Ok(()), listing;
        case Ok(Some(registration)) =>
          recorded := Some(registration.uri);
          return Ok(()), listing;
      }
    }

    /** The entry is forgotten whether or not the printer accepts the DELETE. */
    method WithdrawFromPanel(name: string) returns (r: Result<(), WalkupError>)
      requires Valid(name)
      modifies this, walkup.printer
      ensures Valid(name) && recorded == None
      ensures OwnBounded(old(walkup.printer.entries), walkup.printer.entries, name)
      ensures r.Ok? <==> walkup.printer.failures == old(walkup.printer.failures)
      ensures r.Ok? && old(recorded).Some? ==> old(recorded).value !in Uris(walkup.printer.entries)
      ensures old(recorded).None? ==>
                r.Ok? && walkup.printer.entries == old(walkup.printer.entries)
                && walkup.printer.taken == old(walkup.printer.taken)
      ensures walkup.printer.posts == old(walkup.printer.posts)
      ensures old(walkup.printer.taken) <= walkup.printer.taken
      ensures forall e | e in walkup.printer.taken - old(walkup.printer.taken) :: e.RegisteredBy(name)
    {
      if recorded.None? {
        return Ok(());
      }
      var uri := recorded.value;
      recorded := None;
      ghost var before, used := walkup.printer.entries, walkup.printer.used;
      r := walkup.Remove(name, uri);
      OwnOnlyShrinks(before, used, walkup.printer.entries, name);
      SmallerUnlessEqual(OwnUris(walkup.printer.entries, name), OwnUris(before, name));
    }

    /**
     Every run: connects, disconnects, restarts and other hosts in any order, each request answered,
     lost or refused, the process dying at any of them. This host's entries never outnumber what it
     started with, or one; and nothing it deletes is anybody else's.
     */
    method Run(hostname: string, happenings: seq<Happening>)
      requires Valid(PanelName(hostname))
      modifies this, walkup.printer
      ensures Valid(PanelName(hostname))
      ensures OwnBounded(old(walkup.printer.entries), walkup.printer.entries, PanelName(hostname))
      ensures forall e | e in walkup.printer.taken - old(walkup.printer.taken) :: e.RegisteredBy(PanelName(hostname))
      ensures forall e | e in walkup.printer.taken - old(walkup.printer.taken) :: BearsName(e, PanelName(hostname))
    {
      var name := PanelName(hostname);
      hide PanelName, BearsName;
      for i := 0 to |happenings|
        invariant Valid(name)
        invariant OwnBounded(old(walkup.printer.entries), walkup.printer.entries, name)
        invariant old(walkup.printer.taken) <= walkup.printer.taken
        invariant forall e | e in walkup.printer.taken - old(walkup.printer.taken) :: e.RegisteredBy(name)
      {
        match happenings[i] {
          case Connect =>
            var caps: Capabilities := *;
            var r, _ := RegisterOnPanel(name, caps);
            if r == Err(ProcessDied) { recorded := None; }
          case Disconnect =>
            var r := WithdrawFromPanel(name);
          case OthersOnly =>
            ghost var before, used := walkup.printer.entries, walkup.printer.used;
            walkup.printer.OthersAct(name);
            OwnOnlyShrinks(before, used, walkup.printer.entries, name);
            SmallerUnlessEqual(OwnUris(walkup.printer.entries, name), OwnUris(before, name));
          case Restart =>
            recorded := None;
        }
      }
      OnlyItsOwn(walkup.printer.taken - old(walkup.printer.taken), name);
    }
  }

  ghost predicate OwnBounded(before: seq<Destination>, after: seq<Destination>, name: string) {
    |OwnUris(after, name)| <= |OwnUris(before, name)| || |OwnUris(after, name)| <= 1
  }
}

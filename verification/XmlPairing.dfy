/**
 The event machine that pairs each entry of a destination collection with the host that
 registered it, and the escaping of the name this host sends.
 */
module XmlPairing {
  import opened Wrappers
  import opened Text

  datatype Destination = Destination(uri: string, hostname: string) {
    /** Whether this is an entry `name` registered: what the sweep deletes on. */
    predicate RegisteredBy(name: string) {
      hostname != "" && EqIgnoreAsciiCase(hostname, name)
    }
  }

  /** What one `&...;` names, as the XML reader reports it. */
  datatype Reference = Character(code: nat) | Named(name: string) | Undecodable

  /** The events of the XML reader. Names are local names; `Text` is `None` when it does not decode. */
  datatype Event =
    | Start(name: string)
    | End(name: string)
    | Text(content: Option<string>)
    | GeneralRef(reference: Reference)
    | Other
    | Broken

  datatype MalformedDocument = NotXml | TextNotDecodable | UnresolvableReference

  const ENTRY := "WalkupScanToCompDestination"
  const RESOURCE_URI := "ResourceURI"
  const HOSTNAME := "Hostname"

  datatype Field = Uri | Host

  /** The values of the entry being read; `None` is a field no text has reached. */
  datatype Entry = Entry(uri: Option<string>, hostname: Option<string>) {
    function Append(field: Field, run: string): Entry {
      match field
      case Uri => this.(uri := Some(OrEmpty(uri) + run))
      case Host => this.(hostname := Some(OrEmpty(hostname) + run))
    }

    /** An entry with a blank URI yields nothing. */
    function Close(): seq<Destination> {
      var address := Trim(OrEmpty(uri));
      if address == "" then [] else [Destination(address, Trim(OrEmpty(hostname)))]
    }
  }

  function OrEmpty(s: Option<string>): string {
    match s case Some(text) => text case None => ""
  }

  function Predefined(name: string): Option<string> {
    if name == "lt" then Some("<")
    else if name == "gt" then Some(">")
    else if name == "amp" then Some("&")
    else if name == "apos" then Some("'")
    else if name == "quot" then Some("\"")
    else None
  }

  function Resolve(reference: Reference): Option<string> {
    match reference
    case Undecodable => None
    case Named(name) => Predefined(name)
    case Character(code) =>
      if 0 < code < 0xD800 || 0xE000 <= code < 0x11_0000 then Some([code as char]) else None
  }

  /** What each reference stands for: the five names XML knows, and every character by its code. */
  lemma {:induction false} ResolveIs(name: string, c: char, code: nat)
    ensures Resolve(Named("lt")) == Some("<") && Resolve(Named("gt")) == Some(">")
    ensures Resolve(Named("amp")) == Some("&") && Resolve(Named("apos")) == Some("'")
    ensures Resolve(Named("quot")) == Some("\"")
    ensures name !in {"lt", "gt", "amp", "apos", "quot"} ==> Resolve(Named(name)) == None
    ensures c as int != 0 ==> Resolve(Character(c as int)) == Some([c])
    ensures code == 0 || 0xD800 <= code <= 0xDFFF || code > 0x10_FFFF ==> Resolve(Character(code)) == None
    ensures Resolve(Undecodable) == None
  {
  }

  datatype Machine = Machine(entry: Option<Entry>, field: Option<Field>, found: seq<Destination>)

  type Stepped = Result<Machine, MalformedDocument>

  function Step(m: Machine, event: Event): Stepped {
    match event
    case Start(name) =>
      if name == ENTRY then Ok(m.(entry := Some(Entry(None, None))))
      else if name == RESOURCE_URI && m.entry.Some? then Ok(m.(field := Some(Uri)))
      else if name == HOSTNAME && m.entry.Some? then Ok(m.(field := Some(Host)))
      else Ok(m.(field := None))
    case Text(content) =>
      if m.entry.None? || m.field.None? then Ok(m)
      else if content.None? then Err(TextNotDecodable)
      else Ok(m.(entry := Some(m.entry.value.Append(m.field.value, content.value))))
    case GeneralRef(reference) =>
      if m.entry.None? || m.field.None? then Ok(m)
      else if Resolve(reference).None? then Err(UnresolvableReference)
      else Ok(m.(entry := Some(m.entry.value.Append(m.field.value, Resolve(reference).value))))
    case End(name) =>
      if name == ENTRY && m.entry.Some? then Ok(Machine(None, None, m.found + m.entry.value.Close()))
      else Ok(m.(field := None))
    case Other => Ok(m)
    case Broken => Err(NotXml)
  }

  function Fold(m: Machine, events: seq<Event>): Stepped
    decreases |events|
  {
    if events == [] then Ok(m)
    else
      match Step(m, events[0])
      case Ok(next) => Fold(next, events[1..])
      case Err(e) => Err(e)
  }

  const FRESH := Machine(None, None, [])

  function ParsedDestinations(events: seq<Event>): Result<seq<Destination>, MalformedDocument> {
    match Fold(FRESH, events)
    case Ok(m) => Ok(m.found)
    case Err(e) => Err(e)
  }

  /** The source's event loop, with its three local variables. */
  method ParseDestinations(events: seq<Event>) returns (r: Result<seq<Destination>, MalformedDocument>)
    ensures r == ParsedDestinations(events)
  {
    hide Step, Trim;
    var destinations: seq<Destination> := [];
    var entry: Option<Entry> := None;
    var field: Option<Field> := None;
    var i := 0;
    assert events[0..] == events;
    while i < |events|
      invariant 0 <= i <= |events|
      invariant Fold(FRESH, events) == Fold(Machine(entry, field, destinations), events[i..])
    {
      var next := ParseEvent(entry, field, destinations, events[i]);
      assert events[i..][1..] == events[i + 1..];
      match next {
        case Err(e) => return Err(e);
        case Ok(m) => entry, field, destinations := m.entry, m.field, m.found;
      }
      i := i + 1;
    }
    return Ok(destinations);
  }

  /** One turn of the loop: the source's `match` on the event. */
  method ParseEvent(entry: Option<Entry>, field: Option<Field>, destinations: seq<Destination>, event: Event)
    returns (r: Stepped)
    ensures r == Step(Machine(entry, field, destinations), event)
  {
    var entry, field, destinations := entry, field, destinations;
    match event {
      case Start(name) =>
        if name == ENTRY {
          entry := Some(Entry(None, None));
        } else if name == RESOURCE_URI && entry.Some? {
          field := Some(Uri);
        } else if name == HOSTNAME && entry.Some? {
          field := Some(Host);
        } else {
          field := None;
        }
      case Text(content) =>
        if entry.Some? && field.Some? {
          if content.None? {
            return Err(TextNotDecodable);
          }
          entry := Some(entry.value.Append(field.value, content.value));
        }
      case GeneralRef(reference) =>
        if entry.Some? && field.Some? {
          var run := Resolve(reference);
          if run.None? {
            return Err(UnresolvableReference);
          }
          entry := Some(entry.value.Append(field.value, run.value));
        }
      case End(name) =>
        if name == ENTRY && entry.Some? {
          destinations := destinations + entry.value.Close();
          entry := None;
        }
        field := None;
      case Other =>
      case Broken =>
        return Err(NotXml);
    }
    return Ok(Machine(entry, field, destinations));
  }

  lemma {:induction false} FoldAppend(m: Machine, a: seq<Event>, b: seq<Event>)
    requires Fold(m, a).Ok?
    ensures Fold(m, a + b) == Fold(Fold(m, a).value, b)
    decreases |a|
  {
    hide Step;
    if a == [] {
      assert a + b == b;
    } else {
      assert (a + b)[1..] == a[1..] + b;
      FoldAppend(Step(m, a[0]).value, a[1..], b);
    }
  }

  /**
   What does not decode or resolve is an error in one of the two fields, and nowhere else; what is no XML is
   one anywhere.
   */
  lemma {:induction false} BadContentIsRefused(m: Machine, before: seq<Event>, event: Event, after: seq<Event>)
    requires Fold(m, before).Ok?
    ensures var at := Fold(m, before).value;
            var inField := at.entry.Some? && at.field.Some?;
            var r := Fold(m, before + [event] + after);
            && (event == Broken ==> r == Err(NotXml))
            && (event == Text(None) ==> r == if inField then Err(TextNotDecodable) else Fold(at, after))
            && (event.GeneralRef? && Resolve(event.reference) == None ==>
                  r == if inField then Err(UnresolvableReference) else Fold(at, after))
  {
    hide Resolve;
    FoldAppend(m, before, [event] + after);
    assert before + ([event] + after) == before + [event] + after;
    assert ([event] + after)[1..] == after;
  }

  // ----- Documents as a device writes them -----

  /** Character data cut into runs: text, references, and events that carry none. */
  ghost predicate Runs(events: seq<Event>, value: string)
    decreases |events|
  {
    if events == [] then value == ""
    else
      match events[0]
      case Text(Some(run)) => run <= value && Runs(events[1..], value[|run|..])
      case GeneralRef(reference) =>
        Resolve(reference).Some? && Resolve(reference).value <= value
        && Runs(events[1..], value[|Resolve(reference).value|..])
      case Other => Runs(events[1..], value)
      case _ => false
  }

  /** Siblings and their content: any elements but the three that mean something here. */
  ghost predicate Sibling(events: seq<Event>) {
    forall e | e in events ::
      e != Broken && (e.Start? || e.End? ==> e.name !in {ENTRY, RESOURCE_URI, HOSTNAME})
  }

  /** Between entries only the entry element itself is special. */
  ghost predicate Between(events: seq<Event>) {
    forall e | e in events :: e != Broken && (e.Start? ==> e.name != ENTRY)
  }

  /** One child of an entry, with the events that spell it. */
  datatype Child =
    | Value(field: Field, events: seq<Event>, value: string)
    | Unrelated(events: seq<Event>)

  function FieldName(field: Field): string {
    match field case Uri => RESOURCE_URI case Host => HOSTNAME
  }

  ghost predicate ChildSpelled(c: Child) {
    match c
    case Value(_, events, value) => Runs(events, value)
    case Unrelated(events) => Sibling(events)
  }

  function ChildEvents(c: Child): seq<Event> {
    match c
    case Value(field, events, _) => [Start(FieldName(field))] + events + [End(FieldName(field))]
    case Unrelated(events) => events
  }

  function Children(children: seq<Child>): seq<Event> {
    if children == [] then [] else ChildEvents(children[0]) + Children(children[1..])
  }

  /** What the children say about one field, in whatever order they come. */
  function ValueOf(children: seq<Child>, field: Field): string {
    if children == [] then ""
    else (if children[0].Value? && children[0].field == field then children[0].value else "")
         + ValueOf(children[1..], field)
  }

  datatype Written = Written(before: seq<Event>, children: seq<Child>)

  ghost predicate EntrySpelled(w: Written) {
    Between(w.before) && forall c | c in w.children :: ChildSpelled(c)
  }

  function EntryEvents(w: Written): seq<Event> {
    w.before + ([Start(ENTRY)] + (Children(w.children) + [End(ENTRY)]))
  }

  function Document(entries: seq<Written>, after: seq<Event>): seq<Event> {
    if entries == [] then after else EntryEvents(entries[0]) + Document(entries[1..], after)
  }

  /** The destinations a document states: trimmed pairs in order, blank URIs left out. */
  function Stated(entries: seq<Written>): seq<Destination> {
    if entries == [] then []
    else
      var uri := Trim(ValueOf(entries[0].children, Uri));
      (if uri == "" then [] else [Destination(uri, Trim(ValueOf(entries[0].children, Host)))])
      + Stated(entries[1..])
  }

  lemma {:induction false} RunsAppend(m: Machine, events: seq<Event>, value: string)
    requires m.entry.Some? && m.field.Some? && Runs(events, value)
    ensures Fold(m, events).Ok?
    ensures var next := Fold(m, events).value;
            next.field == m.field && next.found == m.found && next.entry.Some?
            && OrEmpty(next.entry.value.uri)
               == OrEmpty(m.entry.value.uri) + (if m.field.value.Uri? then value else "")
            && OrEmpty(next.entry.value.hostname)
               == OrEmpty(m.entry.value.hostname) + (if m.field.value.Host? then value else "")
    decreases |events|
  {
    hide Step, Runs;
    if events != [] {
      var run := OneRun(m, events, value);
      RunsAppend(Step(m, events[0]).value, events[1..], value[|run|..]);
      AppendedTwice(m, run, value);
    } else {
      NoRuns(value);
    }
  }

  lemma {:induction false} NoRuns(value: string)
    requires Runs([], value)
    ensures value == ""
  {
  }

  /** The first of the events adds the first run. */
  lemma {:induction false} OneRun(m: Machine, events: seq<Event>, value: string) returns (run: string)
    requires m.entry.Some? && m.field.Some? && events != [] && Runs(events, value)
    ensures run <= value && Runs(events[1..], value[|run|..])
    ensures Step(m, events[0]).Ok?
    ensures var next := Step(m, events[0]).value;
            next.field == m.field && next.found == m.found && next.entry.Some?
            && OrEmpty(next.entry.value.uri) == OrEmpty(m.entry.value.uri) + (if m.field.value.Uri? then run else "")
            && OrEmpty(next.entry.value.hostname)
               == OrEmpty(m.entry.value.hostname) + (if m.field.value.Host? then run else "")
  {
    hide Resolve;
    run := match events[0]
      case Text(Some(t)) => t
      case GeneralRef(reference) => Resolve(reference).value
      case Other => "";
    assert OrEmpty(m.entry.value.uri) + "" == OrEmpty(m.entry.value.uri);
    assert OrEmpty(m.entry.value.hostname) + "" == OrEmpty(m.entry.value.hostname);
  }

  lemma {:induction false} AppendedTwice(m: Machine, run: string, value: string)
    requires m.entry.Some? && run <= value
    ensures OrEmpty(m.entry.value.uri) + run + value[|run|..] == OrEmpty(m.entry.value.uri) + value
    ensures OrEmpty(m.entry.value.hostname) + run + value[|run|..] == OrEmpty(m.entry.value.hostname) + value
  {
  }

  lemma {:induction false} UnrelatedIsIgnored(m: Machine, events: seq<Event>)
    requires m.field.None?
    requires if m.entry.Some? then Sibling(events) else Between(events)
    ensures Fold(m, events) == Ok(m)
    decreases |events|
  {
    if events != [] {
      assert events[0] in events;
      assert forall e | e in events[1..] :: e in events;
      UnrelatedIsIgnored(m, events[1..]);
    }
  }

  /** `next` is `m` after an entry's children added these values to its two fields. */
  ghost predicate Collected(m: Machine, next: Stepped, uri: string, hostname: string)
    requires m.entry.Some?
  {
    && next.Ok? && next.value.field.None? && next.value.found == m.found && next.value.entry.Some?
    && OrEmpty(next.value.entry.value.uri) == OrEmpty(m.entry.value.uri) + uri
    && OrEmpty(next.value.entry.value.hostname) == OrEmpty(m.entry.value.hostname) + hostname
  }

  lemma {:induction false} ChildIsCollected(m: Machine, c: Child)
    requires m.entry.Some? && m.field.None? && ChildSpelled(c)
    ensures Collected(m, Fold(m, ChildEvents(c)), ValueOf([c], Uri), ValueOf([c], Host))
  {
    hide Runs, Sibling, Fold;
    assert [c][1..] == [] && ValueOf([c][1..], Uri) == "" && ValueOf([c][1..], Host) == "";
    assert forall text: string :: text + "" == text;
    match c {
      case Value(field, events, value) =>
        var entered := m.(field := Some(field));
        FoldCons(m, Start(FieldName(field)), events + [End(FieldName(field))]);
        assert ChildEvents(c) == [Start(FieldName(field))] + (events + [End(FieldName(field))]);
        RunsAppend(entered, events, value);
        FoldAppend(entered, events, [End(FieldName(field))]);
        FoldCons(Fold(entered, events).value, End(FieldName(field)), []);
        FoldNil(Fold(entered, events).value.(field := None));
        assert [End(FieldName(field))] + [] == [End(FieldName(field))];
        assert ValueOf([c], field) == value + "" == value;
      case Unrelated(events) =>
        UnrelatedIsIgnored(m, events);
    }
  }

  lemma {:induction false} FoldNil(m: Machine)
    ensures Fold(m, []) == Ok(m)
  {
  }

  lemma {:induction false} FoldCons(m: Machine, event: Event, events: seq<Event>)
    requires Step(m, event).Ok?
    ensures Fold(m, [event] + events) == Fold(Step(m, event).value, events)
  {
    hide Step;
    assert ([event] + events)[1..] == events;
  }

  lemma {:induction false} CollectedNothing(m: Machine)
    requires m.entry.Some? && m.field.None?
    ensures Collected(m, Ok(m), "", "")
  {
    assert OrEmpty(m.entry.value.uri) + "" == OrEmpty(m.entry.value.uri);
    assert OrEmpty(m.entry.value.hostname) + "" == OrEmpty(m.entry.value.hostname);
  }

  lemma {:induction false} CollectedTwice(
    m: Machine, next: Machine, last: Stepped, u: string, h: string, u': string, h': string)
    requires m.entry.Some? && m.field.None? && Collected(m, Ok(next), u, h)
    requires next.entry.Some? && next.field.None? && Collected(next, last, u', h')
    ensures Collected(m, last, u + u', h + h')
  {
    var uri, host := OrEmpty(m.entry.value.uri), OrEmpty(m.entry.value.hostname);
    assert (uri + u) + u' == uri + (u + u') && (host + h) + h' == host + (h + h');
  }

  lemma {:induction false} CollectedMachine(m: Machine, next: Stepped, u: string, h: string)
    requires m.entry.Some? && Collected(m, next, u, h)
    ensures next.Ok? && next.value.entry.Some? && next.value.field.None?
  {
  }

  lemma {:induction false} ChildrenAreCollected(m: Machine, children: seq<Child>)
    requires m.entry.Some? && m.field.None? && forall c | c in children :: ChildSpelled(c)
    ensures Collected(m, Fold(m, Children(children)), ValueOf(children, Uri), ValueOf(children, Host))
    decreases |children|
  {
    hide ChildSpelled, Fold, ChildEvents, Collected, Step;
    if children == [] {
      FoldNil(m);
      CollectedNothing(m);
    } else {
      var c, rest := children[0], children[1..];
      ChildIsCollected(m, c);
      CollectedMachine(m, Fold(m, ChildEvents(c)), ValueOf([c], Uri), ValueOf([c], Host));
      var next := Fold(m, ChildEvents(c)).value;
      FoldAppend(m, ChildEvents(c), Children(rest));
      ChildrenAreCollected(next, rest);
      ValuesAddUp(children, Uri);
      ValuesAddUp(children, Host);
      CollectedTwice(m, next, Fold(next, Children(rest)),
                     ValueOf([c], Uri), ValueOf([c], Host), ValueOf(rest, Uri), ValueOf(rest, Host));
    }
  }

  lemma {:induction false} ValuesAddUp(children: seq<Child>, field: Field)
    requires children != []
    ensures ValueOf(children, field) == ValueOf(children[..1], field) + ValueOf(children[1..], field)
    ensures children[..1] == [children[0]]
  {
    assert children[..1][1..] == [];
    assert ValueOf(children[..1][1..], field) == "";
  }

  lemma {:induction false} EntryIsPaired(m: Machine, w: Written)
    requires m.entry.None? && m.field.None? && EntrySpelled(w)
    ensures Fold(m, EntryEvents(w)) == Ok(m.(found := m.found + Stated([w])))
  {
    hide Trim, Between, ChildSpelled;
    UnrelatedIsIgnored(m, w.before);
    var rest := [Start(ENTRY)] + (Children(w.children) + [End(ENTRY)]);
    FoldAppend(m, w.before, rest);
    var entered := m.(entry := Some(Entry(None, None)));
    assert rest[1..] == Children(w.children) + [End(ENTRY)];
    assert Step(m, Start(ENTRY)) == Ok(entered);
    ChildrenAreCollected(entered, w.children);
    FoldAppend(entered, Children(w.children), [End(ENTRY)]);
    assert "" + ValueOf(w.children, Uri) == ValueOf(w.children, Uri);
    assert "" + ValueOf(w.children, Host) == ValueOf(w.children, Host);
    var full := Fold(entered, Children(w.children)).value;
    assert Fold(full, [End(ENTRY)]) == Step(full, End(ENTRY));
    assert Stated([w]) == full.entry.value.Close();
  }

  /** Every entry is paired with its own host, and nothing else is returned. */
  lemma {:induction false} EveryEntryIsPaired(m: Machine, entries: seq<Written>, after: seq<Event>)
    requires m.entry.None? && m.field.None?
    requires Between(after) && forall w | w in entries :: EntrySpelled(w)
    ensures Fold(m, Document(entries, after)) == Ok(m.(found := m.found + Stated(entries)))
    decreases |entries|
  {
    hide Trim, EntrySpelled, EntryEvents, Between, Fold, Step, ValueOf;
    if entries == [] {
      UnrelatedIsIgnored(m, after);
      assert m.found + [] == m.found;
    } else {
      var next := m.(found := m.found + Stated(entries[..1]));
      assert entries[..1] == [entries[0]];
      EntryIsPaired(m, entries[0]);
      FoldAppend(m, EntryEvents(entries[0]), Document(entries[1..], after));
      EveryEntryIsPaired(next, entries[1..], after);
      assert m.found + (Stated(entries[..1]) + Stated(entries[1..]))
          == m.found + Stated(entries[..1]) + Stated(entries[1..]);
      StatedAppend(entries[..1], entries[1..]);
      assert entries == entries[..1] + entries[1..];
    }
  }

  lemma {:induction false} DocumentReadsBack(entries: seq<Written>, after: seq<Event>)
    requires Between(after) && forall w | w in entries :: EntrySpelled(w)
    ensures ParsedDestinations(Document(entries, after)) == Ok(Stated(entries))
  {
    hide EntrySpelled, Between, Document, Fold, Stated;
    EveryEntryIsPaired(FRESH, entries, after);
    assert [] + Stated(entries) == Stated(entries);
  }

  // ----- The name this host sends -----

  function Replace(s: string, c: char, with: string): string {
    if s == "" then "" else (if s[0] == c then with else [s[0]]) + Replace(s[1..], c, with)
  }

  /** XML escaping for element content, as three passes over the text. */
  function EscapeText(s: string): string {
    Replace(Replace(Replace(s, '&', "&amp;"), '<', "&lt;"), '>', "&gt;")
  }

  function EscapedChar(c: char): string {
    if c == '&' then "&amp;" else if c == '<' then "&lt;" else if c == '>' then "&gt;" else [c]
  }

  function EscapedOnce(s: string): string {
    if s == "" then "" else EscapedChar(s[0]) + EscapedOnce(s[1..])
  }

  lemma {:induction false} ReplaceAppend(a: string, b: string, c: char, with: string)
    ensures Replace(a + b, c, with) == Replace(a, c, with) + Replace(b, c, with)
    decreases |a|
  {
    if a == "" {
      assert a + b == b;
    } else {
      assert (a + b)[1..] == a[1..] + b;
      ReplaceAppend(a[1..], b, c, with);
    }
  }

  lemma {:induction false} ReplaceAbsent(s: string, c: char, with: string)
    requires c !in s
    ensures Replace(s, c, with) == s
    decreases |s|
  {
    if s != "" {
      ReplaceAbsent(s[1..], c, with);
    }
  }

  /** The order of the passes is harmless: no pass rewrites what an earlier one produced. */
  lemma {:induction false} ThreePassesAreOne(s: string)
    ensures EscapeText(s) == EscapedOnce(s)
    decreases |s|
  {
    if s != "" {
      var head := if s[0] == '&' then "&amp;" else [s[0]];
      ReplaceAppend(head, Replace(s[1..], '&', "&amp;"), '<', "&lt;");
      var less := Replace(head, '<', "&lt;");
      ReplaceAppend(less, Replace(Replace(s[1..], '&', "&amp;"), '<', "&lt;"), '>', "&gt;");
      PassesOnOneChar(s[0]);
      ThreePassesAreOne(s[1..]);
    }
  }

  lemma {:induction false} PassesOnOneChar(c: char)
    ensures var head := if c == '&' then "&amp;" else [c];
            Replace(Replace(head, '<', "&lt;"), '>', "&gt;") == EscapedChar(c)
  {
    var head := if c == '&' then "&amp;" else [c];
    if c == '<' {
      assert Replace(head, '<', "&lt;") == "&lt;" + Replace(head[1..], '<', "&lt;") == "&lt;";
      ReplaceAbsent("&lt;", '>', "&gt;");
    } else {
      ReplaceAbsent(head, '<', "&lt;");
      if c == '>' {
        assert Replace(head, '>', "&gt;") == "&gt;" + Replace(head[1..], '>', "&gt;") == "&gt;";
      } else {
        ReplaceAbsent(head, '>', "&gt;");
      }
    }
  }

  /** The events an XML reader makes of element content: every `&...;` is one of its own. */
  function ContentEvents(s: string): seq<Event> {
    if s == "" then []
    else if s[0] == '&' then
      var name := UpTo(s[1..], ';');
      [GeneralRef(Named(name))] + (if |name| + 2 <= |s| then ContentEvents(s[|name| + 2..]) else [])
    else
      [Text(Some(s[..1]))] + ContentEvents(s[1..])
  }

  lemma {:induction false} ReferenceReads(name: string, rest: string)
    requires ';' !in name
    ensures ContentEvents("&" + (name + (";" + rest))) == [GeneralRef(Named(name))] + ContentEvents(rest)
  {
    hide UpTo;
    var whole := "&" + (name + (";" + rest));
    assert whole[1..] == name + [';'] + rest;
    UpToStops(name, ';', rest);
    assert whole[|name| + 2..] == rest;
  }

  lemma {:induction false} PlainCharReads(c: char, rest: string)
    requires c != '&'
    ensures ContentEvents([c] + rest) == [Text(Some([c]))] + ContentEvents(rest)
  {
    assert ([c] + rest)[1..] == rest && ([c] + rest)[..1] == [c];
  }

  lemma {:induction false} EscapedCharReads(c: char, rest: string)
    ensures var events := ContentEvents(EscapedChar(c) + rest);
            && events != [] && events[1..] == ContentEvents(rest)
            && (events[0] == Text(Some([c]))
                || (events[0].GeneralRef? && Resolve(events[0].reference) == Some([c])))
  {
    hide ContentEvents;
    if c in {'&', '<', '>'} {
      var name := if c == '&' then "amp" else if c == '<' then "lt" else "gt";
      assert EscapedChar(c) + rest == "&" + (name + (";" + rest));
      ReferenceReads(name, rest);
    } else {
      PlainCharReads(c, rest);
    }
  }

  /** What goes out escaped comes back as the runs of the text that was escaped. */
  lemma {:induction false} EscapedTextReadsBack(s: string)
    ensures Runs(ContentEvents(EscapedOnce(s)), s)
    decreases |s|
  {
    hide EscapedChar, ContentEvents, Resolve;
    if s != "" {
      EscapedCharReads(s[0], EscapedOnce(s[1..]));
      EscapedTextReadsBack(s[1..]);
    } else {
      NoContent();
    }
  }

  lemma {:induction false} NoContent()
    ensures ContentEvents("") == []
  {
  }

  const FALLBACK_PANEL_NAME := "scanbus"

  /** The machine's name without its domain. */
  function PanelName(hostname: string): (name: string)
    ensures name != "" && Trimmed(name) && '.' !in name
  {
    var short := Trim(UpTo(hostname, '.'));
    TrimLeaves(UpTo(hostname, '.'));
    if short == "" then FALLBACK_PANEL_NAME else short
  }

  /** It is the trimmed text before the first dot, or `scanbus` when that is blank. */
  lemma {:induction false} PanelNameIs(before: string, short: string, after: string, domain: string)
    requires Blank(before) && Trimmed(short) && Blank(after) && '.' !in before + short + after
    ensures PanelName(before + short + after) == if short == "" then "scanbus" else short
    ensures PanelName(before + short + after + "." + domain) == if short == "" then "scanbus" else short
  {
    hide Trim, UpTo, Blank, Trimmed;
    var name := before + short + after;
    UpToStops(name, '.', domain);
    assert name + "." + domain == name + ['.'] + domain;
    TrimTakes(before, short, after);
  }

  /**
   A device that lists the document this host posted, hostname escaped as it was sent, lists an
   entry the sweep recognises: whatever the machine is called, and next to any other entries.
   */
  lemma {:induction false} WhatThisHostPostsItRecognises(hostname: string, uri: string, uriEvents: seq<Event>,
                                      before: seq<Written>, others: seq<Written>)
    requires Runs(uriEvents, uri) && Trimmed(uri) && uri != ""
    requires forall w | w in before + others :: EntrySpelled(w)
    ensures var name := PanelName(hostname);
            var posted := Written([], [Value(Uri, uriEvents, uri),
                                       Value(Host, ContentEvents(EscapeText(name)), name)]);
            var document := Document(before + [posted] + others, []);
            && Destination(uri, name).RegisteredBy(name)
            && ParsedDestinations(document) == Ok(Stated(before) + [Destination(uri, name)] + Stated(others))
  {
    hide Runs, Trim, PanelName, ContentEvents, EscapeText;
    var name := PanelName(hostname);
    ThreePassesAreOne(name);
    EscapedTextReadsBack(name);
    var host := Value(Host, ContentEvents(EscapeText(name)), name);
    var posted := Written([], [Value(Uri, uriEvents, uri), host]);
    var entries := before + [posted] + others;
    forall w | w in entries
      ensures EntrySpelled(w)
    {
      if w != posted { assert w in before + others; }
    }
    DocumentReadsBack(entries, []);
    StatedAppend(before + [posted], others);
    StatedAppend(before, [posted]);
    PostedStates(uri, uriEvents, host);
  }

  lemma {:induction false} PostedStates(uri: string, uriEvents: seq<Event>, host: Child)
    requires host.Value? && host.field == Host && Trimmed(uri) && uri != "" && Trimmed(host.value)
    ensures Stated([Written([], [Value(Uri, uriEvents, uri), host])]) == [Destination(uri, host.value)]
  {
    hide Trim;
    var children := [Value(Uri, uriEvents, uri), host];
    assert children[1..] == [host] && [host][1..] == [];
    assert ValueOf([host][1..], Uri) == "" && ValueOf([host][1..], Host) == "";
    assert host.value + "" == host.value;
    assert ValueOf([host], Uri) == "" && ValueOf([host], Host) == host.value;
    assert ValueOf(children, Uri) == uri + "" == uri;
    assert ValueOf(children, Host) == host.value;
    TrimLeaves(uri);
    TrimLeaves(host.value);
  }

  lemma {:induction false} StatedAppend(a: seq<Written>, b: seq<Written>)
    ensures Stated(a + b) == Stated(a) + Stated(b)
    decreases |a|
  {
    hide Trim, ValueOf;
    if a == [] {
      assert a + b == b;
    } else {
      assert (a + b)[1..] == a[1..] + b;
      StatedAppend(a[1..], b);
    }
  }
}

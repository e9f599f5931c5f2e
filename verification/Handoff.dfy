/**
 How an upload gets from the connection it came in on to whoever fetches it. Each step is one hold of a lock,
 or one wait; steps of any number of connections, and of the callers, fall in any order.
 */
module Handoff {
  import opened Wrappers
  import DeviceTable
  import opened Authorization
  import opened Frames
  import opened Weaving

  type Scanner = DeviceTable.Scanner
  type Device = DeviceTable.Device
  type Digest = DeviceTable.Digest
  type Connection = nat
  type Id = nat

  /** Where a connection's task stands. */
  datatype Phase =
    | Authorized(scanner: Scanner)
    | Subscribed(scanner: Scanner)
    | Minted(id: Id)
    | Announcing(id: Id)
    | Waiting(id: Id)
    | Withdrawing(id: Id, reason: ProtocolError)
    | Streaming(id: Id)
    | Ended(answer: Option<ProtocolError>)

  datatype Receiver = Unclaimed | Held(holder: Scanner) | Dropped

  /** What an id stands for: the connection it was minted on, the scanner that was authorized, and its pages. */
  datatype Channel = Channel(conn: Connection, scanner: Scanner, receiver: Receiver, pages: seq<nat>)

  /** A fetch that found its id. */
  datatype Fetched = Fetched(scanner: Scanner, id: Id, ok: bool)

  datatype State = State(
    paired: map<Scanner, Device>,
    requireTls: bool,
    subscribed: set<Scanner>,
    next: Id,
    phases: map<Connection, Phase>,
    granted: map<Connection, Scanner>,
    channels: map<Id, Channel>,
    pending: set<Id>,
    fetches: seq<Fetched>)

  datatype Event =
    | Authorizes(conn: Connection, deviceId: string, digest: Digest, overTls: bool)
    | LooksUp(conn: Connection)
    | Mints(conn: Connection)
    | Inserts(conn: Connection)
    | Announces(conn: Connection, delivered: bool)
    | TimesOut(conn: Connection)
    | Withdraws(conn: Connection)
    | Proceeds(conn: Connection)
    | SendsPage(conn: Connection, page: nat)
    | Finishes(conn: Connection, answer: Option<ProtocolError>)
    | Fetches(scanner: Scanner, id: Id)
    | DropsStream(id: Id)
    | Pairings(paired: map<Scanner, Device>)
    | Subscribes(scanner: Scanner)
    | Unsubscribes(scanner: Scanner)

  function To(st: State, conn: Connection, phase: Phase): State {
    st.(phases := st.phases[conn := phase])
  }

  /** An event whose turn it is not leaves everything as it is. */
  function Step(st: State, e: Event): State {
    match e
    case Authorizes(c, deviceId, digest, overTls) =>
      if c in st.phases then st
      else (
        match Authorize(st.paired, deviceId, digest, overTls, st.requireTls)
        case None => To(st, c, Ended(Some(Unauthorized)))
        case Some(scanner) => To(st.(granted := st.granted[c := scanner]), c, Authorized(scanner)))
    case Pairings(paired) => st.(paired := paired)
    case Subscribes(scanner) => st.(subscribed := st.subscribed + {scanner})
    case Unsubscribes(scanner) => st.(subscribed := st.subscribed - {scanner})
    case Fetches(scanner, id) => Fetch(st, scanner, id)
    case DropsStream(id) => DropStream(st, id)
    case _ => if e.conn !in st.phases then st else TaskStep(st, e.conn, st.phases[e.conn], e)
  }

  /** A claim is over, sent or dropped, as soon as its entry is out of the pending map. */
  function TaskStep(st: State, c: Connection, phase: Phase, e: Event): State {
    match phase
    case Authorized(scanner) =>
      if !e.LooksUp? then st
      else To(st, c, if scanner in st.subscribed then Subscribed(scanner) else Ended(Some(NotConnected)))
    case Subscribed(scanner) =>
      if !e.Mints? then st
      else To(st.(next := st.next + 1, channels := st.channels[st.next := Channel(c, scanner, Unclaimed, [])]),
              c, Minted(st.next))
    case Minted(id) =>
      if !e.Inserts? then st else To(st.(pending := st.pending + {id}), c, Announcing(id))
    case Announcing(id) =>
      if !e.Announces? then st
      else To(st, c, if e.delivered then Waiting(id) else Withdrawing(id, NotConnected))
    case Waiting(id) =>
      if e.TimesOut? && id in st.pending then To(st, c, Withdrawing(id, Malformed))
      else if e.Proceeds? && id !in st.pending then To(st, c, Streaming(id))
      else st
    case Withdrawing(id, reason) =>
      if !e.Withdraws? then st else To(Unclaim(st, id), c, Ended(Some(reason)))
    case Streaming(id) =>
      if e.SendsPage? then
        if id in st.channels && st.channels[id].receiver.Held? then
          st.(channels := st.channels[id := st.channels[id].(pages := st.channels[id].pages + [e.page])])
        else To(st, c, Ended(Some(Malformed)))
      else if e.Finishes? then To(st, c, Ended(e.answer))
      else st
    case Ended(_) => st
  }

  /** Removing a pending upload drops its receiver with it. */
  function Unclaim(st: State, id: Id): State {
    if id !in st.pending || id !in st.channels then st
    else st.(pending := st.pending - {id}, channels := st.channels[id := st.channels[id].(receiver := Dropped)])
  }

  /** The entry is taken out before it is asked whose it is. */
  function Fetch(st: State, scanner: Scanner, id: Id): State {
    if id !in st.pending || id !in st.channels then st
    else
      var ch := st.channels[id];
      var ok := ch.scanner == scanner;
      st.(pending := st.pending - {id},
          channels := st.channels[id := ch.(receiver := if ok then Held(scanner) else Dropped)],
          fetches := st.fetches + [Fetched(scanner, id, ok)])
  }

  function DropStream(st: State, id: Id): State {
    if id in st.channels && st.channels[id].receiver.Held? then
      st.(channels := st.channels[id := st.channels[id].(receiver := Dropped)])
    else st
  }

  function Run(st: State, events: seq<Event>): State
    decreases |events|
  {
    if events == [] then st else Run(Step(st, events[0]), events[1..])
  }

  // ----- What holds in every state -----

  function IdOf(phase: Phase): Option<Id> {
    match phase
    case Minted(id) => Some(id)
    case Announcing(id) => Some(id)
    case Waiting(id) => Some(id)
    case Withdrawing(id, _) => Some(id)
    case Streaming(id) => Some(id)
    case _ => None
  }

  /** A task knows no id but the one minted on it, and no scanner but the one it was authorized for. */
  ghost predicate TaskOk(st: State, c: Connection)
    requires c in st.phases
  {
    var phase := st.phases[c];
    && (IdOf(phase).Some? ==> IdOf(phase).value in st.channels && st.channels[IdOf(phase).value].conn == c)
    && (phase.Authorized? || phase.Subscribed? ==> c in st.granted && st.granted[c] == phase.scanner)
  }

  /** While an id is pending its task will see to it; once its task has ended nothing is pending. */
  ghost predicate ChannelOk(st: State, id: Id)
    requires id in st.channels
  {
    var ch := st.channels[id];
    && id < st.next
    && ch.conn in st.granted && st.granted[ch.conn] == ch.scanner
    && ch.conn in st.phases && (IdOf(st.phases[ch.conn]) == Some(id) || st.phases[ch.conn].Ended?)
    && (st.phases[ch.conn].Minted? ==> ch.receiver == Unclaimed)
    && (st.phases[ch.conn].Streaming? || st.phases[ch.conn].Ended? ==> ch.receiver != Unclaimed)
    && (id in st.pending <==> ch.receiver == Unclaimed && !st.phases[ch.conn].Minted?)
    && (ch.receiver.Held? ==> ch.receiver.holder == ch.scanner)
    && (ch.receiver.Held? || ch.pages != [] ==> Fetched(ch.scanner, id, true) in st.fetches)
  }

  ghost predicate FetchOk(st: State, f: Fetched) {
    && f.id in st.channels && st.channels[f.id].receiver != Unclaimed
    && (f.ok <==> f.scanner == st.channels[f.id].scanner)
  }

  ghost predicate OneIdEach(st: State) {
    forall i, j | i in st.channels && j in st.channels && st.channels[i].conn == st.channels[j].conn :: i == j
  }

  ghost predicate FoundOnce(st: State) {
    forall i, j | 0 <= i < j < |st.fetches| :: st.fetches[i].id != st.fetches[j].id
  }

  ghost predicate Inv(st: State) {
    && (forall c | c in st.phases :: TaskOk(st, c))
    && (forall id | id in st.channels :: ChannelOk(st, id))
    && (forall f | f in st.fetches :: FetchOk(st, f))
    && (forall c | c in st.granted :: c in st.phases)
    && st.pending <= st.channels.Keys && OneIdEach(st) && FoundOnce(st)
  }

  function Initial(paired: map<Scanner, Device>, requireTls: bool): State {
    State(paired, requireTls, {}, 1, map[], map[], map[], {}, [])
  }

  lemma {:induction false} InitiallySo(paired: map<Scanner, Device>, requireTls: bool)
    ensures Inv(Initial(paired, requireTls))
  {
  }

  /** A step that touches one connection, and the id minted on it, has only those two to answer for. */
  lemma {:induction false} LocalChange(st: State, after: State, c: Connection, phase: Phase, id: Id, ch: Channel)
    requires Inv(st) && c in st.phases && id in st.channels
    requires st.channels[id].conn == c && ch.conn == c && ch.scanner == st.channels[id].scanner
    requires after == st.(phases := st.phases[c := phase], channels := st.channels[id := ch],
                          pending := after.pending, fetches := after.fetches)
    requires forall i :: i != id ==> (i in after.pending <==> i in st.pending)
    requires after.pending <= after.channels.Keys
    requires st.fetches <= after.fetches && FoundOnce(after)
    requires forall f | f in after.fetches :: f in st.fetches || FetchOk(after, f)
    requires TaskOk(after, c) && ChannelOk(after, id)
    requires st.channels[id].receiver != Unclaimed ==> ch.receiver != Unclaimed
    ensures Inv(after)
  {
    forall d | d in after.phases
      ensures TaskOk(after, d)
    {
      assert TaskOk(st, d);
    }
    forall i | i in after.channels
      ensures ChannelOk(after, i)
    {
      assert ChannelOk(st, i);
      if i != id {
        assert st.channels[i].conn != c;
      }
    }
    forall f | f in after.fetches
      ensures FetchOk(after, f)
    {
      assert f in st.fetches ==> FetchOk(st, f);
    }
  }

  lemma {:induction false} FetchKeepsInv(st: State, scanner: Scanner, id: Id)
    requires Inv(st)
    ensures Inv(Fetch(st, scanner, id))
  {
    var after := Fetch(st, scanner, id);
    if id in st.pending {
      var ch := st.channels[id];
      assert ChannelOk(st, id) && TaskOk(st, ch.conn);
      forall f | f in st.fetches
        ensures f.id != id
      {
        assert FetchOk(st, f);
      }
      assert st.phases[ch.conn := st.phases[ch.conn]] == st.phases;
      LocalChange(st, after, ch.conn, st.phases[ch.conn], id, after.channels[id]);
    }
  }

  lemma {:induction false} DropStreamKeepsInv(st: State, id: Id)
    requires Inv(st)
    ensures Inv(DropStream(st, id))
  {
    if id in st.channels && st.channels[id].receiver.Held? {
      var after, c := DropStream(st, id), st.channels[id].conn;
      assert ChannelOk(st, id) && TaskOk(st, c);
      assert st.phases[c := st.phases[c]] == st.phases;
      LocalChange(st, after, c, st.phases[c], id, after.channels[id]);
    }
  }

  lemma {:induction false} AuthorizesKeepsInv(st: State, after: State, c: Connection, phase: Phase)
    requires Inv(st) && c !in st.phases
    requires after == st.(phases := st.phases[c := phase], granted := after.granted)
    requires if phase.Authorized? then after.granted == st.granted[c := phase.scanner]
             else phase.Ended? && after.granted == st.granted
    ensures Inv(after)
  {
    forall d | d in after.phases
      ensures TaskOk(after, d)
    {
      assert d != c ==> TaskOk(st, d);
    }
    forall i | i in after.channels
      ensures ChannelOk(after, i)
    {
      assert ChannelOk(st, i);
    }
    forall f | f in after.fetches
      ensures FetchOk(after, f)
    {
      assert FetchOk(st, f);
    }
  }

  /** The steps before an id is minted, and the minting. */
  lemma {:induction false} EarlyStepKeepsInv(st: State, c: Connection, e: Event)
    requires Inv(st) && c in st.phases && (st.phases[c].Authorized? || st.phases[c].Subscribed?)
    ensures Inv(TaskStep(st, c, st.phases[c], e))
  {
    var after := TaskStep(st, c, st.phases[c], e);
    assert TaskOk(st, c);
    forall i | i in st.channels
      ensures i < st.next && st.channels[i].conn != c
    {
      assert ChannelOk(st, i);
    }
    forall d | d in after.phases
      ensures TaskOk(after, d)
    {
      assert TaskOk(st, d);
    }
    forall i | i in after.channels
      ensures ChannelOk(after, i)
    {
      assert i in st.channels ==> ChannelOk(st, i);
    }
    forall f | f in after.fetches
      ensures FetchOk(after, f)
    {
      assert FetchOk(st, f);
    }
  }

  lemma {:induction false} LateStepIsLocal(st: State, c: Connection, e: Event, id: Id)
    requires c in st.phases && IdOf(st.phases[c]) == Some(id) && TaskOk(st, c) && ChannelOk(st, id)
    ensures var after := TaskStep(st, c, st.phases[c], e);
            && id in after.channels && c in after.phases
            && after.channels[id].conn == c && after.channels[id].scanner == st.channels[id].scanner
            && after == st.(phases := st.phases[c := after.phases[c]],
                            channels := st.channels[id := after.channels[id]], pending := after.pending)
            && (forall i :: i != id ==> (i in after.pending <==> i in st.pending))
            && TaskOk(after, c) && ChannelOk(after, id)
            && (st.channels[id].receiver != Unclaimed ==> after.channels[id].receiver != Unclaimed)
  {
    hide TaskStep, TaskOk, ChannelOk;
    IdIsKnown(st, c, id);
    LateStepTouches(st, c, e, id);
    LateStepKeepsTask(st, c, e, id);
    LateStepKeepsChannel(st, c, e, id);
  }

  lemma {:induction false} LateStepTouches(st: State, c: Connection, e: Event, id: Id)
    requires c in st.phases && IdOf(st.phases[c]) == Some(id) && id in st.channels
    ensures var after := TaskStep(st, c, st.phases[c], e);
            && id in after.channels && c in after.phases
            && after.channels[id].conn == st.channels[id].conn && after.channels[id].scanner == st.channels[id].scanner
            && after == st.(phases := st.phases[c := after.phases[c]],
                            channels := st.channels[id := after.channels[id]], pending := after.pending)
            && (forall i :: i != id ==> (i in after.pending <==> i in st.pending))
            && (st.channels[id].receiver != Unclaimed ==> after.channels[id].receiver != Unclaimed)
  {
    assert st.channels[id := st.channels[id]] == st.channels;
    assert st.phases[c := st.phases[c]] == st.phases;
  }

  lemma {:induction false} LateStepKeepsTask(st: State, c: Connection, e: Event, id: Id)
    requires c in st.phases && IdOf(st.phases[c]) == Some(id) && TaskOk(st, c)
    ensures var after := TaskStep(st, c, st.phases[c], e);
            c in after.phases && TaskOk(after, c)
  {
  }

  lemma {:induction false} LateStepKeepsChannel(st: State, c: Connection, e: Event, id: Id)
    requires c in st.phases && IdOf(st.phases[c]) == Some(id) && TaskOk(st, c) && ChannelOk(st, id)
    ensures var after := TaskStep(st, c, st.phases[c], e);
            id in after.channels && ChannelOk(after, id)
  {
  }

  lemma {:induction false} LateStepKeepsInv(st: State, c: Connection, e: Event)
    requires Inv(st) && c in st.phases && IdOf(st.phases[c]).Some?
    ensures Inv(TaskStep(st, c, st.phases[c], e))
  {
    hide TaskStep, ChannelOk, TaskOk, FetchOk;
    var after, id := TaskStep(st, c, st.phases[c], e), IdOf(st.phases[c]).value;
    assert TaskOk(st, c);
    IdIsKnown(st, c, id);
    LateStepIsLocal(st, c, e, id);
    LocalChange(st, after, c, after.phases[c], id, after.channels[id]);
  }

  lemma {:induction false} IdIsKnown(st: State, c: Connection, id: Id)
    requires c in st.phases && TaskOk(st, c) && IdOf(st.phases[c]) == Some(id)
    ensures id in st.channels && st.channels[id].conn == c
  {
  }

  lemma {:induction false} StepKeepsInv(st: State, e: Event)
    requires Inv(st)
    ensures Inv(Step(st, e))
  {
    hide TaskStep, Fetch, DropStream, Authorize, TaskOk, ChannelOk, FetchOk;
    match e
    case Fetches(scanner, id) => FetchKeepsInv(st, scanner, id);
    case DropsStream(id) => DropStreamKeepsInv(st, id);
    case Authorizes(c, _, _, _) =>
      if c !in st.phases {
        AuthorizesKeepsInv(st, Step(st, e), c, Step(st, e).phases[c]);
      }
    case Pairings(_) | Subscribes(_) | Unsubscribes(_) => OutsideKeepsInv(st, Step(st, e));
    case _ =>
      if e.conn in st.phases {
        var phase := st.phases[e.conn];
        if phase.Authorized? || phase.Subscribed? {
          EarlyStepKeepsInv(st, e.conn, e);
        } else if phase.Ended? {
          EndedStays(st, e.conn, e);
        } else {
          LateStepKeepsInv(st, e.conn, e);
        }
      }
  }

  lemma {:induction false} EndedStays(st: State, c: Connection, e: Event)
    requires c in st.phases && st.phases[c].Ended?
    ensures TaskStep(st, c, st.phases[c], e) == st
  {
  }

  lemma {:induction false} OutsideKeepsInv(st: State, after: State)
    requires Inv(st) && after == st.(paired := after.paired, subscribed := after.subscribed)
    ensures Inv(after)
  {
    forall d | d in after.phases
      ensures TaskOk(after, d)
    {
      assert TaskOk(st, d);
    }
    forall i | i in after.channels
      ensures ChannelOk(after, i)
    {
      assert ChannelOk(st, i);
    }
    forall f | f in after.fetches
      ensures FetchOk(after, f)
    {
      assert FetchOk(st, f);
    }
  }

  // ----- Whole runs -----

  predicate ConcernsTask(e: Event, c: Connection) {
    match e
    case Fetches(_, _) | DropsStream(_) | Pairings(_) | Subscribes(_) | Unsubscribes(_) => false
    case _ => e.conn == c
  }

  lemma {:induction false} TaskStepTouches(st: State, c: Connection, e: Event)
    requires c in st.phases
    ensures var after := TaskStep(st, c, st.phases[c], e);
            && after.granted == st.granted && after.requireTls == st.requireTls
            && c in after.phases && after.phases == st.phases[c := after.phases[c]]
  {
    hide IdOf;
    assert st.phases[c := st.phases[c]] == st.phases;
  }

  /** A step leaves the policy alone, grants nothing unless it authorizes, and touches one task at most. */
  lemma {:induction false} StepTouches(st: State, e: Event)
    ensures Step(st, e).requireTls == st.requireTls
    ensures !e.Authorizes? ==> Step(st, e).granted == st.granted
    ensures forall d | !ConcernsTask(e, d) :: (d in Step(st, e).phases <==> d in st.phases)
                                              && (d in st.phases ==> Step(st, e).phases[d] == st.phases[d])
  {
    hide Authorize, TaskStep;
    match e
    case Authorizes(_, _, _, _) | Fetches(_, _) | DropsStream(_) | Pairings(_) | Subscribes(_) | Unsubscribes(_) =>
    case _ =>
      if e.conn in st.phases {
        TaskStepTouches(st, e.conn, e);
      }
  }

  lemma {:induction false} EveryRunKeepsInv(st: State, events: seq<Event>)
    requires Inv(st)
    ensures Inv(Run(st, events))
    decreases |events|
  {
    hide Inv, Step;
    if events != [] {
      StepKeepsInv(st, events[0]);
      EveryRunKeepsInv(Step(st, events[0]), events[1..]);
    }
  }

  /**
   However the steps fall: ids are found once, pages reach only the authorized scanner, and an ended upload
   leaves nothing pending.
   */
  lemma {:induction false} InEveryRun(paired: map<Scanner, Device>, requireTls: bool, events: seq<Event>)
    ensures var st := Run(Initial(paired, requireTls), events);
            && FoundOnce(st) && OneIdEach(st)
            && (forall id | id in st.channels && st.channels[id].pages != [] ::
                  var ch := st.channels[id];
                  Fetched(ch.scanner, id, true) in st.fetches
                  && ch.conn in st.granted && st.granted[ch.conn] == ch.scanner)
            && (forall id | id in st.pending ::
                  id in st.channels && st.channels[id].conn in st.phases && !st.phases[st.channels[id].conn].Ended?)
  {
    hide Run;
    var st := Run(Initial(paired, requireTls), events);
    InitiallySo(paired, requireTls);
    EveryRunKeepsInv(Initial(paired, requireTls), events);
    forall id | id in st.channels
      ensures ChannelOk(st, id)
    {
    }
  }

  lemma {:induction false} IdStays(st: State, e: Event, id: Id)
    requires Inv(st) && id in st.channels
    ensures var after := Step(st, e);
            && id in after.channels && after.channels[id].conn == st.channels[id].conn
            && after.channels[id].scanner == st.channels[id].scanner
            && after.next >= st.next
  {
    hide Authorize, TaskOk, FetchOk, TaskStep;
    assert ChannelOk(st, id);
    match e
    case Authorizes(_, _, _, _) | Fetches(_, _) | DropsStream(_) | Pairings(_) | Subscribes(_) | Unsubscribes(_) =>
    case _ =>
      if e.conn in st.phases {
        TaskStepKeepsId(st, e.conn, e, id);
      }
  }

  lemma {:induction false} TaskStepKeepsId(st: State, c: Connection, e: Event, id: Id)
    requires c in st.phases && id in st.channels && id < st.next
    ensures var after := TaskStep(st, c, st.phases[c], e);
            && id in after.channels && after.channels[id].conn == st.channels[id].conn
            && after.channels[id].scanner == st.channels[id].scanner
            && after.next >= st.next
  {
  }

  /** An id is minted once: whatever happens later, it stands for the same connection and scanner. */
  lemma {:induction false} IdsAreMintedOnce(st: State, events: seq<Event>, id: Id)
    requires Inv(st) && id in st.channels
    ensures var after := Run(st, events);
            && id in after.channels && after.channels[id].conn == st.channels[id].conn
            && after.channels[id].scanner == st.channels[id].scanner
    decreases |events|
  {
    hide Inv, Step;
    if events != [] {
      IdStays(st, events[0], id);
      StepKeepsInv(st, events[0]);
      IdsAreMintedOnce(Step(st, events[0]), events[1..], id);
    }
  }

  lemma {:induction false} GrantStays(st: State, e: Event, c: Connection)
    requires Inv(st) && c in st.granted
    ensures c in Step(st, e).granted && Step(st, e).granted[c] == st.granted[c]
  {
    hide Authorize, TaskOk, ChannelOk, FetchOk, TaskStep, Fetch, DropStream;
    StepTouches(st, e);
  }

  lemma {:induction false} GrantStaysOverRuns(st: State, events: seq<Event>, c: Connection)
    requires Inv(st) && c in st.granted
    ensures c in Run(st, events).granted && Run(st, events).granted[c] == st.granted[c]
    decreases |events|
  {
    hide Inv, Step;
    if events != [] {
      GrantStays(st, events[0], c);
      StepKeepsInv(st, events[0]);
      GrantStaysOverRuns(Step(st, events[0]), events[1..], c);
    }
  }

  lemma {:induction false} OnlyAuthorizingGrants(st: State, e: Event, c: Connection)
    requires c !in st.granted && c in Step(st, e).granted
    ensures e.Authorizes? && e.conn == c
    ensures Authorize(st.paired, e.deviceId, e.digest, e.overTls, st.requireTls) == Some(Step(st, e).granted[c])
  {
    hide Authorize, TaskStep, Fetch, DropStream;
    StepTouches(st, e);
  }

  /** No scanner has an upload accepted in its name but by the table as it stood when the header came. */
  lemma {:induction false} GrantsComeFromTheTable(st: State, events: seq<Event>, c: Connection) returns (i: nat)
    requires Inv(st) && c !in st.granted && c in Run(st, events).granted
    ensures i < |events| && events[i].Authorizes? && events[i].conn == c
    ensures var at := Run(st, events[..i]);
            var e := events[i];
            Authorize(at.paired, e.deviceId, e.digest, e.overTls, at.requireTls) == Some(Run(st, events).granted[c])
    decreases |events|
  {
    hide Inv, Step, Authorize;
    var next := Step(st, events[0]);
    StepKeepsInv(st, events[0]);
    if c in next.granted {
      i := 0;
      OnlyAuthorizingGrants(st, events[0], c);
      GrantStaysOverRuns(next, events[1..], c);
    } else {
      i := GrantsComeFromTheTable(next, events[1..], c);
      i := i + 1;
      assert events[..i][0] == events[0] && events[..i][1..] == events[1..][..i - 1];
    }
  }

  // ----- When an upload is lost -----

  function Sends(c: Connection, pages: seq<nat>): (events: seq<Event>)
    ensures |events| == |pages|
  {
    seq(|pages|, i requires 0 <= i < |pages| => SendsPage(c, pages[i]))
  }

  lemma {:induction false} RunAppend(st: State, a: seq<Event>, b: seq<Event>)
    ensures Run(st, a + b) == Run(Run(st, a), b)
    decreases |a|
  {
    hide Step;
    if a == [] {
      assert a + b == b;
    } else {
      assert (a + b)[1..] == a[1..] + b;
      RunAppend(Step(st, a[0]), a[1..], b);
    }
  }

  lemma {:induction false} RunSnoc(st: State, events: seq<Event>, e: Event)
    ensures Run(st, events + [e]) == Step(Run(st, events), e)
    decreases |events|
  {
    hide Step;
    if events == [] {
      assert [e][1..] == [] && [] + [e] == [e];
    } else {
      assert (events + [e])[1..] == events[1..] + [e];
      RunSnoc(Step(st, events[0]), events[1..], e);
    }
  }

  /** Nothing was received, and nothing ever can be. */
  ghost predicate Barren(st: State, id: Id) {
    && id in st.channels && st.channels[id].pages == []
    && st.channels[id].conn in st.phases
    && (st.channels[id].receiver == Dropped
        || st.phases[st.channels[id].conn].Withdrawing? || st.phases[st.channels[id].conn].Ended?)
  }

  lemma {:induction false} BarrenStays(st: State, e: Event, id: Id)
    requires Inv(st) && Barren(st, id)
    ensures Barren(Step(st, e), id) && Step(st, e).channels[id].scanner == st.channels[id].scanner
  {
    hide Authorize, FetchOk, TaskOk, Fetch, DropStream, TaskStep;
    assert ChannelOk(st, id);
    match e
    case Fetches(scanner, other) => BarrenAfterFetch(st, scanner, other, id);
    case DropsStream(other) => BarrenAfterDrop(st, other, id);
    case Authorizes(_, _, _, _) | Pairings(_) | Subscribes(_) | Unsubscribes(_) =>
    case _ =>
      if e.conn in st.phases {
        BarrenAfterTask(st, e.conn, e, id);
      }
  }

  lemma {:induction false} BarrenAfterFetch(st: State, scanner: Scanner, other: Id, id: Id)
    requires Barren(st, id) && ChannelOk(st, id)
    ensures Barren(Fetch(st, scanner, other), id)
    ensures Fetch(st, scanner, other).channels[id].scanner == st.channels[id].scanner
  {
  }

  lemma {:induction false} BarrenAfterDrop(st: State, other: Id, id: Id)
    requires Barren(st, id)
    ensures Barren(DropStream(st, other), id)
    ensures DropStream(st, other).channels[id].scanner == st.channels[id].scanner
  {
  }

  lemma {:induction false} BarrenAfterTask(st: State, c: Connection, e: Event, id: Id)
    requires Inv(st) && Barren(st, id) && c in st.phases
    ensures Barren(TaskStep(st, c, st.phases[c], e), id)
    ensures TaskStep(st, c, st.phases[c], e).channels[id].scanner == st.channels[id].scanner
  {
    hide TaskStep, TaskOk, FetchOk;
    var phase := st.phases[c];
    assert TaskOk(st, c) && ChannelOk(st, id);
    if phase.Authorized? || phase.Subscribed? {
      BarrenAfterEarlyStep(st, c, e, id);
    } else if phase.Ended? {
      EndedStays(st, c, e);
    } else if IdOf(phase) == Some(id) {
      BarrenAfterOwnStep(st, c, e, id);
    } else {
      IdIsKnown(st, c, IdOf(phase).value);
      assert ChannelOk(st, IdOf(phase).value);
      LateStepIsLocal(st, c, e, IdOf(phase).value);
    }
  }

  lemma {:induction false} BarrenAfterEarlyStep(st: State, c: Connection, e: Event, id: Id)
    requires Barren(st, id) && ChannelOk(st, id) && c in st.phases
    requires st.phases[c].Authorized? || st.phases[c].Subscribed?
    ensures Barren(TaskStep(st, c, st.phases[c], e), id)
    ensures TaskStep(st, c, st.phases[c], e).channels[id].scanner == st.channels[id].scanner
  {
  }

  lemma {:induction false} BarrenAfterOwnStep(st: State, c: Connection, e: Event, id: Id)
    requires c in st.phases && Barren(st, id) && TaskOk(st, c) && IdOf(st.phases[c]) == Some(id)
    ensures Barren(TaskStep(st, c, st.phases[c], e), id)
    ensures TaskStep(st, c, st.phases[c], e).channels[id].scanner == st.channels[id].scanner
  {
  }

  lemma {:induction false} BarrenForGood(st: State, events: seq<Event>, id: Id)
    requires Inv(st) && Barren(st, id)
    ensures Barren(Run(st, events), id)
    decreases |events|
  {
    hide Inv, Step, Barren;
    if events != [] {
      BarrenStays(st, events[0], id);
      StepKeepsInv(st, events[0]);
      BarrenForGood(Step(st, events[0]), events[1..], id);
    }
  }

  /** Some run brings just these pages. */
  ghost predicate CanBring(st: State, id: Id, pages: seq<nat>) {
    exists events :: id in Run(st, events).channels && Run(st, events).channels[id].pages == pages
  }

  /**
   An upload still pending when a fetch finds it can yet reach its scanner exactly if the fetch is that
   scanner's and the task has not stopped waiting: otherwise no later step passes a page on, and if so
   the very next steps can.
   */
  lemma {:induction false} ExactlyAFetchInTimeIsServed(st: State, scanner: Scanner, id: Id)
    requires Inv(st) && id in st.pending
    ensures var ch := st.channels[id];
            (exists events :: var after := Run(Fetch(st, scanner, id), events);
               id in after.channels && after.channels[id].pages != [])
            <==> scanner == ch.scanner && ch.conn in st.phases && !st.phases[ch.conn].Withdrawing?
    ensures var ch := st.channels[id];
            scanner == ch.scanner && ch.conn in st.phases && !st.phases[ch.conn].Withdrawing? ==>
              forall pages :: CanBring(Fetch(st, scanner, id), id, pages)
  {
    hide Run, Step, Authorize;
    var ch := st.channels[id];
    assert ChannelOk(st, id);
    var found := Fetch(st, scanner, id);
    FetchKeepsInv(st, scanner, id);
    NothingBeforeAFetch(st, id);
    if scanner == ch.scanner && !st.phases[ch.conn].Withdrawing? {
      var events := ServedBy(st, id, [0]);
      forall pages
        ensures CanBring(found, id, pages)
      {
        var bringing := ServedBy(st, id, pages);
      }
    } else {
      assert Barren(found, id);
      forall events
        ensures Barren(Run(found, events), id)
      {
        BarrenForGood(found, events, id);
      }
    }
  }

  /** What is pending was not fetched, so nothing was received. */
  lemma {:induction false} NothingBeforeAFetch(st: State, id: Id)
    requires Inv(st) && id in st.pending
    ensures st.channels[id].pages == []
  {
    assert ChannelOk(st, id);
    forall f | f in st.fetches
      ensures f.id != id
    {
      assert FetchOk(st, f);
    }
  }

  lemma {:induction false} ServedBy(st: State, id: Id, pages: seq<nat>) returns (events: seq<Event>)
    requires Inv(st) && id in st.pending
    requires ChannelOk(st, id) && !st.phases[st.channels[id].conn].Withdrawing?
    ensures var after := Run(Fetch(st, st.channels[id].scanner, id), events);
            id in after.channels && after.channels[id].pages == pages
  {
    hide Authorize, TaskOk, FetchOk, TaskStep, Step;
    var c := st.channels[id].conn;
    NothingBeforeAFetch(st, id);
    var found := Fetch(st, st.channels[id].scanner, id);
    if st.phases[c].Announcing? {
      AnnouncedWaits(found, c, id);
      var more := WaitingProceeds(Step(found, Announces(c, true)), c, id, pages);
      events := [Announces(c, true)] + more;
      assert events[1..] == more;
    } else {
      events := WaitingProceeds(found, c, id, pages);
    }
  }

  lemma {:induction false} AnnouncedWaits(st: State, c: Connection, id: Id)
    requires c in st.phases && st.phases[c] == Announcing(id)
    ensures Step(st, Announces(c, true)) == To(st, c, Waiting(id))
  {
  }

  lemma {:induction false} WaitingProceeds(st: State, c: Connection, id: Id, pages: seq<nat>)
    returns (events: seq<Event>)
    requires c in st.phases && st.phases[c] == Waiting(id) && id !in st.pending
    requires id in st.channels && st.channels[id].receiver.Held?
    ensures var after := Run(st, events);
            id in after.channels && after.channels[id].pages == st.channels[id].pages + pages
  {
    hide Authorize, Run;
    var streaming := Step(st, Proceeds(c));
    assert streaming == To(st, c, Streaming(id));
    StreamingSends(streaming, c, id, pages);
    events := [Proceeds(c)] + Sends(c, pages);
    RunAppend(st, [Proceeds(c)], Sends(c, pages));
    RunSnoc(st, [], Proceeds(c));
    NoEvents(st);
    assert [] + [Proceeds(c)] == [Proceeds(c)];
  }

  /** Pages go out as they are, one after the other, while somebody holds the other end. */
  lemma {:induction false} StreamingSends(st: State, c: Connection, id: Id, pages: seq<nat>)
    requires c in st.phases && st.phases[c] == Streaming(id)
    requires id in st.channels && st.channels[id].receiver.Held?
    ensures var after := Run(st, Sends(c, pages));
            && id in after.channels && after.channels[id].pages == st.channels[id].pages + pages
            && after.channels[id].receiver == st.channels[id].receiver
            && c in after.phases && after.phases[c] == Streaming(id)
    decreases |pages|
  {
    hide Authorize, Run;
    if pages == [] {
      NoEvents(st);
      assert Sends(c, pages) == [];
    } else {
      var front, last := pages[..|pages| - 1], pages[|pages| - 1];
      StreamingSends(st, c, id, front);
      assert Sends(c, pages) == Sends(c, front) + [SendsPage(c, last)];
      RunSnoc(st, Sends(c, front), SendsPage(c, last));
      assert st.channels[id].pages + front + [last] == st.channels[id].pages + pages;
    }
  }

  lemma {:induction false} NoEvents(st: State)
    ensures Run(st, []) == st
  {
  }

  // ----- The code of one task, among the others -----

  /** The state in which the task's next event falls, its own so far being `own`. */
  function Before(st: State, own: seq<Event>, others: seq<seq<Event>>): State {
    Run(Run(st, Woven(own, others)), At(others, |own|))
  }

  lemma {:induction false} Onward(st: State, own: seq<Event>, others: seq<seq<Event>>, e: Event)
    ensures Run(st, Woven(own + [e], others)) == Step(Before(st, own, others), e)
  {
    hide Run, Step, Woven;
    var so, between := Woven(own, others), At(others, |own|);
    WovenSnoc(own, others, e);
    RunSnoc(st, so + between, e);
    RunAppend(st, so, between);
  }

  /** A run of the task goes on from where an earlier part of it ended. */
  lemma {:induction false} GoesOn(st: State, a: seq<Event>, b: seq<Event>, others: seq<seq<Event>>)
    ensures Run(Run(st, Woven(a, others)), Woven(b, From(others, |a|))) == Run(st, Woven(a + b, others))
    ensures Before(Run(st, Woven(a, others)), b, From(others, |a|)) == Before(st, a + b, others)
  {
    hide Run, Woven;
    WovenAppend(a, b, others);
    RunAppend(st, Woven(a, others), Woven(b, From(others, |a|)));
    assert At(From(others, |a|), |b|) == At(others, |a + b|);
  }

  lemma {:induction false} OtherTasksPages(st: State, d: Connection, e: Event, id: Id)
    requires Inv(st) && id in st.channels && d in st.phases && d != st.channels[id].conn
    ensures var after := TaskStep(st, d, st.phases[d], e);
            && id in after.channels && after.channels[id].conn == st.channels[id].conn
            && after.channels[id].pages == st.channels[id].pages
  {
    hide TaskStep, FetchOk;
    var phase := st.phases[d];
    assert TaskOk(st, d) && ChannelOk(st, id);
    if phase.Authorized? || phase.Subscribed? {
      EarlyPages(st, d, e, id);
    } else if phase.Ended? {
      EndedStays(st, d, e);
    } else {
      IdIsKnown(st, d, IdOf(phase).value);
      LateStepTouches(st, d, e, IdOf(phase).value);
    }
  }

  lemma {:induction false} EarlyPages(st: State, d: Connection, e: Event, id: Id)
    requires d in st.phases && (st.phases[d].Authorized? || st.phases[d].Subscribed?)
    requires id in st.channels && id < st.next
    ensures var after := TaskStep(st, d, st.phases[d], e);
            id in after.channels && after.channels[id] == st.channels[id]
  {
  }

  /** Nobody adds pages to an upload but its own task. */
  lemma {:induction false} OthersSendNothing(st: State, e: Event, id: Id)
    requires Inv(st) && id in st.channels && !ConcernsTask(e, st.channels[id].conn)
    ensures var after := Step(st, e);
            && id in after.channels && after.channels[id].conn == st.channels[id].conn
            && after.channels[id].pages == st.channels[id].pages
  {
    hide Authorize, TaskStep, Inv;
    match e
    case Authorizes(_, _, _, _) | Fetches(_, _) | DropsStream(_) | Pairings(_) | Subscribes(_) | Unsubscribes(_) =>
    case _ =>
      if e.conn in st.phases {
        OtherTasksPages(st, e.conn, e, id);
      }
  }

  /** The pages of an upload as its own task left them. */
  predicate SamePages(st: State, after: State, id: Id) {
    id in st.channels ==>
      && id in after.channels && after.channels[id].conn == st.channels[id].conn
      && after.channels[id].pages == st.channels[id].pages
  }

  lemma {:induction false} OthersRunSendsNothing(st: State, todo: seq<Event>, id: Id)
    requires Inv(st) && id in st.channels && forall e | e in todo :: !ConcernsTask(e, st.channels[id].conn)
    ensures SamePages(st, Run(st, todo), id)
    decreases |todo|
  {
    hide Inv, Step, ConcernsTask;
    if todo != [] {
      assert todo[0] in todo;
      OthersSendNothing(st, todo[0], id);
      StepKeepsInv(st, todo[0]);
      OthersRunSendsNothing(Step(st, todo[0]), todo[1..], id);
    }
  }

  lemma {:induction false} ItsPagesStay(st: State, todo: seq<Event>, c: Connection)
    requires Inv(st) && forall e | e in todo :: !ConcernsTask(e, c)
    ensures forall id | id in st.channels && st.channels[id].conn == c :: SamePages(st, Run(st, todo), id)
  {
    hide Inv, Run, ConcernsTask, SamePages;
    forall id | id in st.channels && st.channels[id].conn == c
      ensures SamePages(st, Run(st, todo), id)
    {
      OthersRunSendsNothing(st, todo, id);
    }
  }

  /** The upload's channel, and what its task put in so far. */
  predicate HasSent(st: State, c: Connection, id: Id, pages: seq<nat>) {
    id in st.channels && st.channels[id].conn == c && st.channels[id].pages == pages
  }

  /** Events of other tasks and of callers only. */
  predicate OthersOnly(others: seq<seq<Event>>, c: Connection) {
    forall k | 0 <= k < |others| :: forall e | e in others[k] :: !ConcernsTask(e, c)
  }

  /**
   An upload as it arrives, and what the world does to it: whether the subscriber takes its trigger, the pages
   the phone goes on to send, and how that ends.
   */
  datatype Arrival = Arrival(
    conn: Connection, deviceId: string, digest: Digest, overTls: bool,
    delivered: bool, pages: seq<nat>, end: Option<ProtocolError>)

  function Opening(a: Arrival): (own: seq<Event>)
    ensures |own| == 5
  {
    [Authorizes(a.conn, a.deviceId, a.digest, a.overTls), LooksUp(a.conn), Mints(a.conn), Inserts(a.conn),
     Announces(a.conn, a.delivered)]
  }

  /** All pages and the end, or all up to the first that finds nobody there. */
  function Streams(c: Connection, pages: seq<nat>, end: Option<ProtocolError>, sent: nat): seq<Event>
    requires sent <= |pages|
  {
    if sent == |pages| then Sends(c, pages) + [Finishes(c, end)] else Sends(c, pages[..sent + 1])
  }

  /** How an upload ends; `Streamed` with the number of pages that went out. */
  datatype Way = Refused | NobodyListens | NotDelivered | NotClaimed | Streamed(sent: nat)

  /** The task's own events, in the order of its code. */
  function Script(a: Arrival, way: Way): seq<Event>
    requires way.Streamed? ==> way.sent <= |a.pages|
  {
    match way
    case Refused => Opening(a)[..1]
    case NobodyListens => Opening(a)[..2]
    case _ => Opening(a) + Closing(a, way)
  }

  /** Those after the announcement. */
  function Closing(a: Arrival, way: Way): seq<Event>
    requires way.Streamed? ==> way.sent <= |a.pages|
  {
    match way
    case NotClaimed => [TimesOut(a.conn), Withdraws(a.conn)]
    case Streamed(sent) => [Proceeds(a.conn)] + Streams(a.conn, a.pages, a.end, sent)
    case _ => [Withdraws(a.conn)]
  }

  function AnswerOf(a: Arrival, way: Way): Option<ProtocolError> {
    match way
    case Refused => Some(Unauthorized)
    case NobodyListens => Some(NotConnected)
    case NotDelivered => Some(NotConnected)
    case NotClaimed => Some(Malformed)
    case Streamed(sent) => if sent == |a.pages| then a.end else Some(Malformed)
  }

  predicate CanSend(st: State, id: Id) { id in st.channels && st.channels[id].receiver.Held? }

  /** Each page before number `sent` finds somebody there, and that one, if there is one, does not. */
  predicate StreamEnds(st: State, c: Connection, id: Id, pages: seq<nat>, others: seq<seq<Event>>, sent: nat) {
    && sent <= |pages|
    && (forall n: nat | n < sent :: CanSend(Before(st, Sends(c, pages[..n]), others), id))
    && (sent < |pages| ==> !CanSend(Before(st, Sends(c, pages[..sent]), others), id))
  }

  /** The upload is authorized, its scanner subscribed, and `id` minted for it. */
  predicate IsOpened(st: State, a: Arrival, others: seq<seq<Event>>, id: Id) {
    var first := Before(st, [], others);
    var scanner := Authorize(first.paired, a.deviceId, a.digest, a.overTls, first.requireTls);
    && scanner.Some? && scanner.value in Before(st, Opening(a)[..1], others).subscribed
    && id == Before(st, Opening(a)[..2], others).next
  }

  /** Which way an announced upload goes. */
  predicate Concludes(st: State, a: Arrival, id: Id, others: seq<seq<Event>>, way: Way) {
    if !a.delivered then way == NotDelivered
    else if id in Before(st, [], others).pending then way == NotClaimed
    else
      && way.Streamed?
      && StreamEnds(Run(st, Woven([Proceeds(a.conn)], others)), a.conn, id, a.pages, From(others, 1), way.sent)
  }

  /** Which way an upload goes, told by the states in which its own events fall. */
  predicate Goes(st: State, a: Arrival, others: seq<seq<Event>>, way: Way) {
    var first := Before(st, [], others);
    var scanner := Authorize(first.paired, a.deviceId, a.digest, a.overTls, first.requireTls);
    if scanner == None then way == Refused
    else if scanner.value !in Before(st, Opening(a)[..1], others).subscribed then way == NobodyListens
    else Concludes(Run(st, Woven(Opening(a), others)), a, Before(st, Opening(a)[..2], others).next,
                   From(others, 5), way)
  }

  class Uploads {
    var state: State

    /** What other tasks and callers do before this one runs again. */
    method Others(c: Connection, todo: seq<Event>)
      requires Inv(state) && forall e | e in todo :: !ConcernsTask(e, c)
      modifies this
      ensures Inv(state) && state == Run(old(state), todo)
      ensures c in state.phases <==> c in old(state.phases)
      ensures c in state.phases ==> state.phases[c] == old(state.phases)[c]
    {
      hide Inv, Step, Run, ConcernsTask;
      NoEvents(state);
      for i := 0 to |todo|
        invariant Inv(state) && state == Run(old(state), todo[..i])
        invariant c in state.phases <==> c in old(state.phases)
        invariant c in state.phases ==> state.phases[c] == old(state.phases)[c]
      {
        StepKeepsInv(state, todo[i]);
        StepTouches(state, todo[i]);
        RunSnoc(old(state), todo[..i], todo[i]);
        assert todo[..i + 1] == todo[..i] + [todo[i]];
        state := Step(state, todo[i]);
      }
      assert todo[..|todo|] == todo;
    }

    /** The others' turn before event `k` of those the task makes from `start` on. */
    method Wait(c: Connection, others: seq<seq<Event>>, k: nat, ghost start: State, ghost own: seq<Event>)
      requires Inv(state) && OthersOnly(others, c)
      requires k < |own| && state == Run(start, Woven(own[..k], others))
      modifies this
      ensures Inv(state) && state == Before(start, own[..k], others)
      ensures Run(start, Woven(own[..k + 1], others)) == Step(state, own[k])
      ensures c in state.phases <==> c in old(state.phases)
      ensures c in state.phases ==> state.phases[c] == old(state.phases)[c]
      ensures forall id | id in old(state.channels) && old(state.channels)[id].conn == c ::
                SamePages(old(state), state, id)
    {
      hide Inv, Step, Run, Woven, ConcernsTask, SamePages;
      Onward(start, own[..k], others, own[k]);
      assert own[..k] + [own[k]] == own[..k + 1];
      Others(c, At(others, k));
      ItsPagesStay(old(state), At(others, k), c);
    }

    method FetchPages(scanner: Scanner, id: Id) returns (ok: bool)
      requires Inv(state)
      modifies this
      ensures state == Step(old(state), Fetches(scanner, id)) && Inv(state)
      ensures ok <==> id in old(state.pending) && old(state.channels)[id].scanner == scanner
      ensures ok ==> state.channels[id].receiver == Held(scanner)
      ensures id !in state.pending
    {
      hide TaskOk, ChannelOk, FetchOk;
      FetchKeepsInv(state, scanner, id);
      if id !in state.pending {
        return false;
      }
      state := state.(pending := state.pending - {id});
      var upload := state.channels[id];
      if upload.scanner != scanner {
        state := state.(channels := state.channels[id := upload.(receiver := Dropped)],
                        fetches := state.fetches + [Fetched(scanner, id, false)]);
        return false;
      }
      state := state.(channels := state.channels[id := upload.(receiver := Held(scanner))],
                      fetches := state.fetches + [Fetched(scanner, id, true)]);
      return true;
    }

    // The holds of a lock, and the waits, that one upload's task goes through.

    method AuthorizeUpload(c: Connection, deviceId: string, digest: Digest, overTls: bool)
      returns (scanner: Option<Scanner>)
      requires Inv(state) && c !in state.phases
      modifies this
      ensures state == Step(old(state), Authorizes(c, deviceId, digest, overTls)) && Inv(state)
      ensures scanner == Authorize(old(state.paired), deviceId, digest, overTls, old(state.requireTls))
      ensures c in state.phases
      ensures state.phases[c] == if scanner.Some? then Authorized(scanner.value) else Ended(Some(Unauthorized))
    {
      hide Inv, Authorize;
      StepKeepsInv(state, Authorizes(c, deviceId, digest, overTls));
      scanner := Authorize(state.paired, deviceId, digest, overTls, state.requireTls);
      if scanner.Some? {
        state := state.(granted := state.granted[c := scanner.value]);
        state := state.(phases := state.phases[c := Authorized(scanner.value)]);
      } else {
        state := state.(phases := state.phases[c := Ended(Some(Unauthorized))]);
      }
    }

    method LookUpSubscription(c: Connection, scanner: Scanner) returns (found: bool)
      requires Inv(state) && c in state.phases && state.phases[c] == Authorized(scanner)
      modifies this
      ensures state == Step(old(state), LooksUp(c)) && Inv(state)
      ensures found <==> scanner in old(state.subscribed)
      ensures c in state.phases
      ensures state.phases[c] == if found then Subscribed(scanner) else Ended(Some(NotConnected))
    {
      hide Inv;
      StepKeepsInv(state, LooksUp(c));
      found := scanner in state.subscribed;
      state := state.(phases := state.phases[c := if found then Subscribed(scanner) else Ended(Some(NotConnected))]);
    }

    method Mint(c: Connection, scanner: Scanner) returns (id: Id)
      requires Inv(state) && c in state.phases && state.phases[c] == Subscribed(scanner)
      modifies this
      ensures state == Step(old(state), Mints(c)) && Inv(state)
      ensures id == old(state.next) && c in state.phases && state.phases[c] == Minted(id)
      ensures HasSent(state, c, id, [])
    {
      hide Inv;
      StepKeepsInv(state, Mints(c));
      id := state.next;
      state := state.(next := id + 1);
      state := state.(channels := state.channels[id := Channel(c, scanner, Unclaimed, [])]);
      state := state.(phases := state.phases[c := Minted(id)]);
    }

    method Insert(c: Connection, id: Id)
      requires Inv(state) && c in state.phases && state.phases[c] == Minted(id)
      modifies this
      ensures state.channels == old(state.channels)
      ensures state == Step(old(state), Inserts(c)) && Inv(state)
      ensures c in state.phases && state.phases[c] == Announcing(id)
    {
      hide Inv;
      StepKeepsInv(state, Inserts(c));
      state := state.(pending := state.pending + {id});
      state := state.(phases := state.phases[c := Announcing(id)]);
    }

    /** The trigger is taken by the subscriber, or the subscriber is gone. */
    method Announce(c: Connection, id: Id, delivered: bool)
      requires Inv(state) && c in state.phases && state.phases[c] == Announcing(id)
      modifies this
      ensures state.channels == old(state.channels)
      ensures state == Step(old(state), Announces(c, delivered)) && Inv(state)
      ensures c in state.phases
      ensures state.phases[c] == if delivered then Waiting(id) else Withdrawing(id, NotConnected)
    {
      hide Inv;
      StepKeepsInv(state, Announces(c, delivered));
      state := state.(phases := state.phases[c := if delivered then Waiting(id) else Withdrawing(id, NotConnected)]);
    }

    /** The end of the wait: the claim is over, or the time is. */
    method AwaitClaim(c: Connection, id: Id) returns (claimed: bool)
      requires Inv(state) && c in state.phases && state.phases[c] == Waiting(id)
      modifies this
      ensures state.channels == old(state.channels)
      ensures state == Step(old(state), if claimed then Proceeds(c) else TimesOut(c)) && Inv(state)
      ensures claimed <==> id !in old(state.pending)
      ensures c in state.phases
      ensures state.phases[c] == if claimed then Streaming(id) else Withdrawing(id, Malformed)
    {
      hide Inv;
      claimed := id !in state.pending;
      StepKeepsInv(state, if claimed then Proceeds(c) else TimesOut(c));
      state := state.(phases := state.phases[c := if claimed then Streaming(id) else Withdrawing(id, Malformed)]);
    }

    /** The entry goes, if a fetch has not taken it meanwhile, and its receiver with it. */
    method Withdraw(c: Connection, id: Id, reason: ProtocolError)
      requires Inv(state) && c in state.phases && state.phases[c] == Withdrawing(id, reason)
      modifies this
      ensures forall pages | HasSent(old(state), c, id, pages) :: HasSent(state, c, id, pages)
      ensures state == Step(old(state), Withdraws(c)) && Inv(state)
      ensures c in state.phases && state.phases[c] == Ended(Some(reason))
    {
      hide Inv, TaskOk, ChannelOk, FetchOk;
      StepKeepsInv(state, Withdraws(c));
      if id in state.pending && id in state.channels {
        state := state.(pending := state.pending - {id});
        var upload := state.channels[id];
        state := state.(channels := state.channels[id := upload.(receiver := Dropped)]);
      }
      state := state.(phases := state.phases[c := Ended(Some(reason))]);
    }

    /** A page goes into the channel unless nobody holds its other end. */
    method SendPage(c: Connection, id: Id, page: nat) returns (ok: bool)
      requires Inv(state) && c in state.phases && state.phases[c] == Streaming(id)
      modifies this
      ensures state == Step(old(state), SendsPage(c, page)) && Inv(state)
      ensures forall pages | HasSent(old(state), c, id, pages) ::
                HasSent(state, c, id, if ok then pages + [page] else pages)
      ensures ok <==> CanSend(old(state), id)
      ensures c in state.phases && state.phases[c] == if ok then Streaming(id) else Ended(Some(Malformed))
    {
      hide Inv;
      StepKeepsInv(state, SendsPage(c, page));
      ok := id in state.channels && state.channels[id].receiver.Held?;
      if ok {
        var channel := state.channels[id];
        state := state.(channels := state.channels[id := channel.(pages := channel.pages + [page])]);
      } else {
        state := state.(phases := state.phases[c := Ended(Some(Malformed))]);
      }
    }

    method Finish(c: Connection, id: Id, answer: Option<ProtocolError>)
      requires Inv(state) && c in state.phases && state.phases[c] == Streaming(id)
      modifies this
      ensures state.channels == old(state.channels)
      ensures state == Step(old(state), Finishes(c, answer)) && Inv(state)
      ensures c in state.phases && state.phases[c] == Ended(answer)
    {
      hide Inv;
      StepKeepsInv(state, Finishes(c, answer));
      state := state.(phases := state.phases[c := Ended(answer)]);
    }

    /**
     From an upload's first header to its end: its own events in order, and its answer, as the states they
     fall in decide.
     */
    method ServeUpload(a: Arrival, others: seq<seq<Event>>)
      returns (answer: Option<ProtocolError>, ghost way: Way)
      requires Inv(state) && a.conn !in state.phases && OthersOnly(others, a.conn)
      modifies this
      ensures Goes(old(state), a, others, way) && answer == AnswerOf(a, way)
      ensures state == Run(old(state), Woven(Script(a, way), others))
      ensures Inv(state) && a.conn in state.phases && state.phases[a.conn] == Ended(answer)
      ensures way.Streamed? ==>
                HasSent(state, a.conn, Before(old(state), Opening(a)[..2], others).next, a.pages[..way.sent])
      ensures forall id | id in state.pending :: id in state.channels && state.channels[id].conn != a.conn
    {
      hide Inv, Step, Run, Woven, Authorize, ConcernsTask, StreamEnds, Opening, Before;
      ghost var start := state;
      var announced;
      announced, way := Open(a, others);
      if announced.Err? {
        EndedLeavesNothing(state, a.conn);
        return Some(announced.error), way;
      }
      answer, way := Conclude(a, announced.value, From(others, 5));
      GoesOn(start, Opening(a), Closing(a, way), others);
      EndedLeavesNothing(state, a.conn);
    }

    /** Up to the announcement. */
    method Open(a: Arrival, others: seq<seq<Event>>) returns (r: Result<Id, ProtocolError>, ghost way: Way)
      requires Inv(state) && a.conn !in state.phases && OthersOnly(others, a.conn)
      modifies this
      ensures Inv(state) && a.conn in state.phases
      ensures r.Err? ==>
                && (way == Refused || way == NobodyListens) && Goes(old(state), a, others, way)
                && state == Run(old(state), Woven(Script(a, way), others))
                && AnswerOf(a, way) == Some(r.error) && state.phases[a.conn] == Ended(Some(r.error))
      ensures r.Ok? ==> HasSent(state, a.conn, r.value, [])
      ensures r.Ok? ==>
                && IsOpened(old(state), a, others, r.value)
                && state == Run(old(state), Woven(Opening(a), others))
                && state.phases[a.conn] == if a.delivered then Waiting(r.value) else Withdrawing(r.value, NotConnected)
    {
      hide Inv, Step, Run, Woven, Before, Authorize, ConcernsTask, OthersOnly, Concludes;
      var c := a.conn;
      ghost var start, own := state, Opening(a);
      assert own[..0] == [] && own[..5] == own;
      NotBegun(start, others);
      Wait(c, others, 0, start, own);
      var scanner := AuthorizeUpload(c, a.deviceId, a.digest, a.overTls);
      if scanner.None? {
        return Err(Unauthorized), Refused;
      }
      Wait(c, others, 1, start, own);
      var found := LookUpSubscription(c, scanner.value);
      if !found {
        return Err(NotConnected), NobodyListens;
      }
      var minted := Offer(a, scanner.value, others, start);
      return Ok(minted), Refused;
    }

    /** The minting, and what follows it up to the announcement. */
    method Offer(a: Arrival, scanner: Scanner, others: seq<seq<Event>>, ghost start: State) returns (id: Id)
      requires Inv(state) && a.conn in state.phases && state.phases[a.conn] == Subscribed(scanner)
      requires OthersOnly(others, a.conn) && state == Run(start, Woven(Opening(a)[..2], others))
      modifies this
      ensures Inv(state) && a.conn in state.phases
      ensures id == Before(start, Opening(a)[..2], others).next && HasSent(state, a.conn, id, [])
      ensures state == Run(start, Woven(Opening(a), others))
      ensures state.phases[a.conn] == if a.delivered then Waiting(id) else Withdrawing(id, NotConnected)
    {
      hide Inv, Step, Run, Woven, Before, ConcernsTask, OthersOnly;
      var c := a.conn;
      ghost var own := Opening(a);
      assert own[..5] == own;
      Wait(c, others, 2, start, own);
      id := Mint(c, scanner);
      Wait(c, others, 3, start, own);
      assert HasSent(state, c, id, []);
      Insert(c, id);
      Wait(c, others, 4, start, own);
      assert HasSent(state, c, id, []);
      Announce(c, id, a.delivered);
    }

    /** From the announcement on. */
    method Conclude(a: Arrival, id: Id, others: seq<seq<Event>>)
      returns (answer: Option<ProtocolError>, ghost way: Way)
      requires Inv(state) && a.conn in state.phases && OthersOnly(others, a.conn)
      requires state.phases[a.conn] == if a.delivered then Waiting(id) else Withdrawing(id, NotConnected)
      requires HasSent(state, a.conn, id, [])
      modifies this
      ensures way.Streamed? ==> way.sent <= |a.pages|
      ensures HasSent(state, a.conn, id, if way.Streamed? then a.pages[..way.sent] else [])
      ensures Concludes(old(state), a, id, others, way) && answer == AnswerOf(a, way)
      ensures state == Run(old(state), Woven(Closing(a, way), others))
      ensures Inv(state) && a.conn in state.phases && state.phases[a.conn] == Ended(answer)
    {
      hide Inv, Step, Run, Woven, ConcernsTask, StreamEnds;
      var c := a.conn;
      ghost var start := state;
      NotBegun(start, others);
      Others(c, At(others, 0));
      ItsPagesStay(start, At(others, 0), c);
      if !a.delivered {
        Onward(start, [], others, Withdraws(c));
        assert [] + [Withdraws(c)] == [Withdraws(c)];
        Withdraw(c, id, NotConnected);
        return Some(NotConnected), NotDelivered;
      }
      ghost var claim := if id in state.pending then TimesOut(c) else Proceeds(c);
      Onward(start, [], others, claim);
      assert [] + [claim] == [claim];
      var claimed := AwaitClaim(c, id);
      if !claimed {
        ghost var own := [TimesOut(c), Withdraws(c)];
        assert own[..1] == [TimesOut(c)] && own[..2] == own;
        Wait(c, others, 1, start, own);
        Withdraw(c, id, Malformed);
        return Some(Malformed), NotClaimed;
      }
      ghost var sent;
      answer, sent := StreamPages(c, id, a.pages, a.end, From(others, 1));
      GoesOn(start, [Proceeds(c)], Streams(c, a.pages, a.end, sent), others);
      return answer, Streamed(sent);
    }

    /** Every page in turn, until one finds nobody there. */
    method StreamPages(c: Connection, id: Id, pages: seq<nat>, end: Option<ProtocolError>, others: seq<seq<Event>>)
      returns (answer: Option<ProtocolError>, ghost sent: nat)
      requires Inv(state) && c in state.phases && state.phases[c] == Streaming(id) && OthersOnly(others, c)
      requires HasSent(state, c, id, [])
      modifies this
      ensures sent <= |pages| && StreamEnds(old(state), c, id, pages, others, sent)
      ensures HasSent(state, c, id, pages[..sent])
      ensures state == Run(old(state), Woven(Streams(c, pages, end, sent), others))
      ensures answer == if sent == |pages| then end else Some(Malformed)
      ensures Inv(state) && c in state.phases && state.phases[c] == Ended(answer)
    {
      hide Inv, Step, Run, Woven, ConcernsTask;
      ghost var start, own := state, Sends(c, pages) + [Finishes(c, end)];
      NotBegun(start, others);
      for i := 0 to |pages|
        invariant Inv(state) && c in state.phases && state.phases[c] == Streaming(id)
        invariant state == Run(start, Woven(Sends(c, pages[..i]), others))
        invariant HasSent(state, c, id, pages[..i])
        invariant forall n: nat | n < i :: CanSend(Before(start, Sends(c, pages[..n]), others), id)
      {
        assert own[..i] == Sends(c, pages[..i]) && own[..i + 1] == Sends(c, pages[..i + 1]);
        Wait(c, others, i, start, own);
        assert pages[..i + 1] == pages[..i] + [pages[i]];
        var ok := SendPage(c, id, pages[i]);
        if !ok {
          return Some(Malformed), i;
        }
      }
      assert pages[..|pages|] == pages && own[..|pages|] == Sends(c, pages) && own[..|pages| + 1] == own;
      Wait(c, others, |pages|, start, own);
      Finish(c, id, end);
      return end, |pages|;
    }
  }

  lemma {:induction false} NotBegun(st: State, others: seq<seq<Event>>)
    ensures Run(st, Woven([], others)) == st
  {
  }

  lemma {:induction false} EndedLeavesNothing(st: State, c: Connection)
    requires Inv(st) && c in st.phases && st.phases[c].Ended?
    ensures forall id | id in st.pending :: id in st.channels && st.channels[id].conn != c
  {
    forall id | id in st.pending
      ensures id in st.channels && st.channels[id].conn != c
    {
      assert ChannelOk(st, id);
    }
  }

  // ----- That an upload can be lost -----

  /** One phone, paired over TLS. */
  const PHONE := DeviceTable.Device("phone", [], [], 0, true)

  /** Its upload is announced, and nobody fetches it in time. */
  const LATE: seq<Event> := [
    Subscribes(5), Authorizes(0, "phone", [], true), LooksUp(0), Mints(0), Inserts(0), Announces(0, true), TimesOut(0)]

  /** After its header and the look at the subscriptions. */
  function LateSoFar(): State {
    State(map[5 := PHONE], true, {5}, 1, map[0 := Subscribed(5)], map[0 := 5], map[], {}, [])
  }

  lemma {:induction false} LateBegins()
    ensures Step(Step(Step(Initial(map[5 := PHONE], true), Subscribes(5)),
                      Authorizes(0, "phone", [], true)), LooksUp(0)) == LateSoFar()
  {
    hide Authorize;
    AuthorizedExactly(map[5 := PHONE], "phone", [], true, true, 5);
    assert {} + {5} == {5};
  }

  lemma {:induction false} LateIsWithdrawing() returns (st: State)
    ensures st == Run(Initial(map[5 := PHONE], true), LATE)
    ensures 1 in st.pending && 1 in st.channels && st.channels[1].scanner == 5
    ensures st.channels[1].conn == 0 && 0 in st.phases && st.phases[0].Withdrawing?
  {
    hide Authorize, Run, Initial;
    LateBegins();
    var s4 := Step(LateSoFar(), Mints(0));
    assert s4.phases[0] == Minted(1) && s4.channels[1] == Channel(0, 5, Unclaimed, []);
    var s5 := Step(s4, Inserts(0));
    var s6 := Step(s5, Announces(0, true));
    st := Step(s6, TimesOut(0));
    RunSeven(Initial(map[5 := PHONE], true), Subscribes(5), Authorizes(0, "phone", [], true), LooksUp(0), Mints(0),
             Inserts(0), Announces(0, true), TimesOut(0));
  }

  lemma {:induction false} RunSeven(st: State, a: Event, b: Event, c: Event, d: Event, e: Event, f: Event, g: Event)
    ensures Run(st, [a, b, c, d, e, f, g]) == Step(Step(Step(Step(Step(Step(Step(st, a), b), c), d), e), f), g)
  {
    hide Step, Run;
    NoEvents(st);
    RunSnoc(st, [], a);
    RunSnoc(st, [a], b);
    RunSnoc(st, [a, b], c);
    RunSnoc(st, [a, b, c], d);
    RunSnoc(st, [a, b, c, d], e);
    RunSnoc(st, [a, b, c, d, e], f);
    RunSnoc(st, [a, b, c, d, e, f], g);
    assert [] + [a] == [a] && [a] + [b] == [a, b] && [a, b] + [c] == [a, b, c] && [a, b, c] + [d] == [a, b, c, d];
    assert [a, b, c, d] + [e] == [a, b, c, d, e] && [a, b, c, d, e] + [f] == [a, b, c, d, e, f];
    assert [a, b, c, d, e, f] + [g] == [a, b, c, d, e, f, g];
  }

  /** The right scanner's fetch then succeeds, and no run after it brings a page. */
  lemma {:induction false} AFetchCanSucceedInVain(events: seq<Event>)
    ensures var st := Run(Initial(map[5 := PHONE], true), LATE);
            var found := Fetch(st, 5, 1);
            && Fetched(5, 1, true) in found.fetches
            && 1 in Run(found, events).channels && Run(found, events).channels[1].pages == []
  {
    hide Run, Step, Authorize;
    var st := LateIsWithdrawing();
    InitiallySo(map[5 := PHONE], true);
    EveryRunKeepsInv(Initial(map[5 := PHONE], true), LATE);
    NothingBeforeAFetch(st, 1);
    FetchKeepsInv(st, 5, 1);
    var found := Fetch(st, 5, 1);
    assert found.fetches[|found.fetches| - 1] == Fetched(5, 1, true);
    BarrenForGood(found, events, 1);
  }
}

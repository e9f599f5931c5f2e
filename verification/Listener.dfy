/**
 One socket for every Brother scanner: who is subscribed, when the socket is open, and which press a
 trigger stands for. Every operation is one step here; ListenerWindow splits the one that is not.
 */
module Listener {
  import opened PanelFunction
  import opened Wrappers
  import opened Sets

  type Task = nat

  /** How many presses one subscriber may fall behind by. */
  const EVENT_QUEUE: nat := 8
  /** How many recent presses stay correlatable by trigger id. */
  const RECORDED_PRESSES: nat := 16

  datatype Press = Press(scanner: Scanner, device: Address, function_: Function, user: string)

  datatype Trigger = Trigger(scanner: Scanner, id: nat, button: nat)

  datatype Subscriber = Subscriber(device: Address, epoch: nat)

  datatype Recorded = Recorded(id: nat, press: Press)

  /**
   The listener and what the statements below need to know of its surroundings: the sockets that may
   still be open, how often one was bound while another might be, the queue behind each live stream,
   and everything that was ever handed out.
   */
  datatype State = State(
    bound: Option<Task>,
    subscribers: map<Scanner, Subscriber>,
    closing: Option<Task>,
    presses: seq<Recorded>,
    nextTrigger: nat,
    nextEpoch: nat,
    sockets: set<Task>,
    tasks: nat,
    overlaps: nat,
    queues: map<nat, seq<Trigger>>,
    owners: seq<Scanner>,
    minted: seq<Press>,
    taken: set<nat>)

  const INITIAL := State(None, map[], None, [], 0, 0, {}, 0, 0, map[], [], [], {})

  function Held(task: Option<Task>): set<Task> {
    match task case Some(t) => {t} case None => {}
  }

  /** Wait out whatever a dropped subscription parked. */
  function AwaitClosing(s: State): State {
    s.(closing := None, sockets := s.sockets - Held(s.closing))
  }

  /** Open the socket unless it is open; `binds` is the kernel's answer when it is asked. */
  function EnsureBound(s: State, binds: bool): State {
    if s.bound.Some? || !binds then s
    else s.(bound := Some(s.tasks), tasks := s.tasks + 1, sockets := s.sockets + {s.tasks},
            overlaps := s.overlaps + if s.sockets == {} then 0 else 1)
  }

  function Insert(s: State, scanner: Scanner, device: Address): State {
    var epoch := s.nextEpoch + 1;
    s.(nextEpoch := epoch, owners := s.owners + [scanner],
       subscribers := s.subscribers[scanner := Subscriber(device, epoch)],
       queues := s.queues[epoch := []])
  }

  /** Give up the socket without waiting for it. */
  function Close(s: State): State { s.(bound := None) }

  function SubscribeStep(s: State, scanner: Scanner, device: Address, binds: bool): State {
    var ready := EnsureBound(AwaitClosing(s), binds);
    if ready.bound.None? then ready else Insert(ready, scanner, device)
  }

  function UnsubscribeStep(s: State, scanner: Scanner): State {
    var left := s.(subscribers := s.subscribers - {scanner}, closing := None);
    if left.subscribers == map[] then
      Close(left).(sockets := left.sockets - Held(if left.bound.Some? then left.bound else s.closing))
    else
      left.(sockets := left.sockets - Held(s.closing))
  }

  function DropStep(s: State, scanner: Scanner, epoch: nat): State {
    var gone := s.(queues := s.queues - {epoch});
    if scanner !in s.subscribers || s.subscribers[scanner].epoch != epoch then gone
    else
      var left := gone.(subscribers := s.subscribers - {scanner});
      if left.subscribers == map[] then
        Close(left).(closing := left.bound)
      else left
  }

  function ReceiveFailedStep(s: State): State {
    if s.bound.None? then s
    else s.(subscribers := map[], bound := None, sockets := s.sockets - Held(s.bound))
  }

  function Last(s: seq<Recorded>, n: nat): seq<Recorded> {
    if |s| <= n then s else s[|s| - n..]
  }

  lemma {:induction false} LastOfTail(s: seq<Recorded>, n: nat)
    requires |s| > n
    ensures Last(s[1..], n) == Last(s, n)
  {
    assert s[1..][|s| - 1 - n..] == s[|s| - n..];
  }

  lemma {:induction false} LastOfFew(s: seq<Recorded>, n: nat)
    requires |s| <= n
    ensures Last(s, n) == s
  {
  }

  function RecordStep(s: State, press: Press): State {
    var id := s.nextTrigger + 1;
    s.(nextTrigger := id, presses := Last(s.presses + [Recorded(id, press)], RECORDED_PRESSES),
       minted := s.minted + [press])
  }

  predicate SentFrom(subscribers: map<Scanner, Subscriber>, scanner: Scanner, from: Address) {
    scanner in subscribers && subscribers[scanner].device == from
  }

  /** The first subscriber with this address, in id order. */
  function ScannerAt(subscribers: map<Scanner, Subscriber>, from: Address): (r: Option<Scanner>)
    ensures r.Some? ==> SentFrom(subscribers, r.value, from)
    ensures r.Some? ==> forall t: Scanner | t < r.value :: !SentFrom(subscribers, t, from)
    ensures r.None? ==> forall t: Scanner :: !SentFrom(subscribers, t, from)
  {
    var candidates := set t | t in subscribers && subscribers[t].device == from;
    if candidates == {} then
      assert forall t: Scanner :: SentFrom(subscribers, t, from) ==> t in candidates;
      None
    else
      var t := Least(candidates);
      assert forall u: Scanner :: SentFrom(subscribers, u, from) ==> u in candidates;
      Some(t)
  }

  /** The first subscriber, in the order of the ids, that has this address. */
  predicate FirstAt(subscribers: map<Scanner, Subscriber>, from: Address, scanner: Scanner) {
    && scanner in subscribers && subscribers[scanner].device == from
    && forall t | t in subscribers && subscribers[t].device == from :: scanner <= t
  }

  /** A press is recorded, then offered to the stream, which may have no room for it. */
  function DispatchStep(s: State, from: Address, function_: Function, user: string): State {
    match ScannerAt(s.subscribers, from)
    case None => s
    case Some(scanner) =>
      var recorded := RecordStep(s, Press(scanner, from, function_, user));
      var epoch := s.subscribers[scanner].epoch;
      if epoch in s.queues && |s.queues[epoch]| < EVENT_QUEUE then
        var trigger := Trigger(scanner, recorded.nextTrigger, function_.ButtonIndex());
        recorded.(queues := s.queues[epoch := s.queues[epoch] + [trigger]])
      else recorded
  }

  function Position(presses: seq<Recorded>, scanner: Scanner, id: nat): (r: Option<nat>)
    ensures r.Some? ==> r.value < |presses| && presses[r.value].id == id && presses[r.value].press.scanner == scanner
    ensures r.None? ==> forall i | 0 <= i < |presses| :: !(presses[i].id == id && presses[i].press.scanner == scanner)
  {
    if presses == [] then None
    else if presses[0].id == id && presses[0].press.scanner == scanner then Some(0)
    else match Position(presses[1..], scanner, id) case Some(i) => Some(i + 1) case None => None
  }

  function TakePressStep(s: State, scanner: Scanner, id: nat): (State, Option<Press>) {
    match Position(s.presses, scanner, id)
    case None => (s, None)
    case Some(at) =>
      (s.(presses := s.presses[..at] + s.presses[at + 1..], taken := s.taken + {id}), Some(s.presses[at].press))
  }

  /** The owner of a stream takes its next trigger. */
  function PollStep(s: State, epoch: nat): (State, Option<Trigger>) {
    if epoch !in s.queues || s.queues[epoch] == [] then (s, None)
    else (s.(queues := s.queues[epoch := s.queues[epoch][1..]]), Some(s.queues[epoch][0]))
  }

  /**
   The press is recorded as it came, under the next id, and its trigger is the last of that scanner's stream, if
   the stream lives and fewer than eight wait in it.
   */
  predicate IsDispatched(s: State, t: State, scanner: Scanner, from: Address, function_: Function, user: string)
    requires scanner in s.subscribers
  {
    var epoch := s.subscribers[scanner].epoch;
    && t.minted == s.minted + [Press(scanner, from, function_, user)] && t.nextTrigger == s.nextTrigger + 1
    && Recorded(t.nextTrigger, Press(scanner, from, function_, user)) in t.presses
    && t.queues == (if epoch in s.queues && |s.queues[epoch]| < 8
                    then s.queues[epoch := s.queues[epoch]
                                           + [Trigger(scanner, t.nextTrigger, function_.ButtonIndex())]]
                    else s.queues)
    && t.subscribers == s.subscribers && t.bound == s.bound && t.closing == s.closing && t.taken == s.taken
  }

  lemma {:induction false} LastHasTheLast(s: seq<Recorded>, n: nat)
    requires s != [] && n > 0
    ensures s[|s| - 1] in Last(s, n)
  {
    assert Last(s, n)[|Last(s, n)| - 1] == s[|s| - 1];
  }

  /** What a datagram does, told by the subscriber it is for. */
  lemma {:induction false} DispatchIs(s: State, from: Address, function_: Function, user: string)
    ensures var t := DispatchStep(s, from, function_, user);
            && (forall scanner: Scanner | FirstAt(s.subscribers, from, scanner) ::
                  IsDispatched(s, t, scanner, from, function_, user))
            && ((forall u | u in s.subscribers :: s.subscribers[u].device != from) ==> t == s)
  {
    hide Last;
    var at := ScannerAt(s.subscribers, from);
    forall scanner: Scanner | FirstAt(s.subscribers, from, scanner)
      ensures IsDispatched(s, DispatchStep(s, from, function_, user), scanner, from, function_, user)
    {
      assert SentFrom(s.subscribers, scanner, from);
      assert at == Some(scanner);
      LastHasTheLast(s.presses + [Recorded(s.nextTrigger + 1, Press(scanner, from, function_, user))],
                     RECORDED_PRESSES);
    }
  }

  // ----- The listener itself -----

  class Listener {
    var state: State

    constructor ()
      ensures state == INITIAL
    {
      state := INITIAL;
    }

    method Subscribe(scanner: Scanner, device: Address, binds: bool) returns (epoch: Option<nat>)
      modifies this
      ensures state == SubscribeStep(old(state), scanner, device, binds)
      ensures epoch.Some? <==> old(state).bound.Some? || binds
      ensures epoch.Some? ==> epoch.value == state.nextEpoch == old(state).nextEpoch + 1
      ensures state.closing == None && (epoch.Some? <==> state.bound.Some?)
      ensures epoch.Some? ==>
                && state.subscribers == old(state).subscribers[scanner := Subscriber(device, epoch.value)]
                && state.queues == old(state).queues[epoch.value := []]
      ensures epoch.None? ==> state.subscribers == old(state).subscribers && state.queues == old(state).queues
      ensures old(state).bound.Some? ==> state.bound == old(state).bound
      ensures state.presses == old(state).presses && state.minted == old(state).minted
    {
      var closing := state.closing;
      state := state.(closing := None);
      state := state.(sockets := state.sockets - Held(closing));
      if state.bound.None? {
        if !binds {
          return None;
        }
        state := state.(overlaps := state.overlaps + if state.sockets == {} then 0 else 1);
        state := state.(bound := Some(state.tasks), sockets := state.sockets + {state.tasks}, tasks := state.tasks + 1);
      }
      state := state.(nextEpoch := state.nextEpoch + 1);
      state := state.(subscribers := state.subscribers[scanner := Subscriber(device, state.nextEpoch)]);
      state := state.(queues := state.queues[state.nextEpoch := []], owners := state.owners + [scanner]);
      return Some(state.nextEpoch);
    }

    method Unsubscribe(scanner: Scanner)
      modifies this
      ensures state == UnsubscribeStep(old(state), scanner)
      ensures state.subscribers == old(state).subscribers - {scanner} && state.closing == None
      ensures state.bound == if state.subscribers == map[] then None else old(state).bound
      ensures state.presses == old(state).presses && state.queues == old(state).queues
    {
      state := state.(subscribers := state.subscribers - {scanner});
      var closing := state.closing;
      state := state.(closing := None);
      if state.subscribers == map[] {
        var task := state.bound;
        state := state.(bound := None);
        closing := if task.Some? then task else closing;
      }
      state := state.(sockets := state.sockets - Held(closing));
    }

    method DropSubscription(scanner: Scanner, epoch: nat)
      modifies this
      ensures state == DropStep(old(state), scanner, epoch)
      ensures var own := scanner in old(state).subscribers && old(state).subscribers[scanner].epoch == epoch;
              && state.subscribers == (if own then old(state).subscribers - {scanner} else old(state).subscribers)
              && (if own && state.subscribers == map[] then state.bound == None && state.closing == old(state).bound
                  else state.bound == old(state).bound && state.closing == old(state).closing)
      ensures state.presses == old(state).presses
    {
      state := state.(queues := state.queues - {epoch});
      if scanner !in state.subscribers || state.subscribers[scanner].epoch != epoch {
        return;
      }
      state := state.(subscribers := state.subscribers - {scanner});
      if state.subscribers == map[] {
        var closing := state.bound;
        state := state.(bound := None);
        state := state.(closing := closing);
      }
    }

    /** The end of the receive task when the socket refuses to be read. */
    method ReceiveFailed()
      requires state.bound.Some?
      modifies this
      ensures state == ReceiveFailedStep(old(state))
    {
      var task := state.bound.value;
      state := state.(subscribers := map[]);
      state := state.(bound := None);
      state := state.(sockets := state.sockets - {task});
    }

    /** Record a press and forget the oldest while there are too many. */
    method Record(press: Press) returns (id: nat)
      requires |state.presses| <= RECORDED_PRESSES
      modifies this
      ensures state == RecordStep(old(state), press)
      ensures id == state.nextTrigger
    {
      id := state.nextTrigger + 1;
      var presses := Evict(state.presses + [Recorded(id, press)]);
      state := state.(nextTrigger := id, presses := presses, minted := state.minted + [press]);
    }

    /** The oldest go, one at a time, while there are too many. */
    static method Evict(all: seq<Recorded>) returns (presses: seq<Recorded>)
      ensures presses == Last(all, RECORDED_PRESSES)
    {
      hide Last;
      presses := all;
      while |presses| > RECORDED_PRESSES
        invariant Last(presses, RECORDED_PRESSES) == Last(all, RECORDED_PRESSES)
      {
        LastOfTail(presses, RECORDED_PRESSES);
        presses := presses[1..];
      }
      LastOfFew(presses, RECORDED_PRESSES);
    }

    method Dispatch(from: Address, function_: Function, user: string)
      requires |state.presses| <= RECORDED_PRESSES
      modifies this
      ensures state == DispatchStep(old(state), from, function_, user)
      ensures forall scanner: Scanner | FirstAt(old(state).subscribers, from, scanner) ::
                IsDispatched(old(state), state, scanner, from, function_, user)
      ensures (forall t | t in old(state).subscribers :: old(state).subscribers[t].device != from) ==>
                state == old(state)
    {
      hide Last;
      DispatchIs(state, from, function_, user);
      var scanner := ScannerAt(state.subscribers, from);
      if scanner.None? {
        return;
      }
      var epoch := state.subscribers[scanner.value].epoch;
      var id := Record(Press(scanner.value, from, function_, user));
      if epoch in state.queues && |state.queues[epoch]| < EVENT_QUEUE {
        var trigger := Trigger(scanner.value, id, function_.ButtonIndex());
        state := state.(queues := state.queues[epoch := state.queues[epoch] + [trigger]]);
      }
    }

    method TakePress(scanner: Scanner, id: nat) returns (r: Option<Press>)
      modifies this
      ensures (state, r) == TakePressStep(old(state), scanner, id)
    {
      var at := Position(state.presses, scanner, id);
      if at.None? {
        return None;
      }
      r := Some(state.presses[at.value].press);
      state := state.(presses := state.presses[..at.value] + state.presses[at.value + 1..],
                      taken := state.taken + {id});
    }
  }

  // ----- Every run -----

  datatype Action =
    | Subscribe(scanner: Scanner, device: Address, binds: bool)
    | Unsubscribe(scanner: Scanner)
    | Drop(scanner: Scanner, epoch: nat)
    | ReceiveFailed
    | Dispatch(from: Address, function_: Function, user: string)
    | TakePress(scanner: Scanner, id: nat)
    | Poll(epoch: nat)

  function Apply(s: State, action: Action): State {
    match action
    case Subscribe(scanner, device, binds) => SubscribeStep(s, scanner, device, binds)
    case Unsubscribe(scanner) => UnsubscribeStep(s, scanner)
    case Drop(scanner, epoch) => DropStep(s, scanner, epoch)
    case ReceiveFailed => ReceiveFailedStep(s)
    case Dispatch(from, function_, user) => DispatchStep(s, from, function_, user)
    case TakePress(scanner, id) => TakePressStep(s, scanner, id).0
    case Poll(epoch) => PollStep(s, epoch).0
  }

  function Run(s: State, actions: seq<Action>): State
    decreases |actions|
  {
    if actions == [] then s else Run(Apply(s, actions[0]), actions[1..])
  }

  /** The socket is open exactly while somebody is subscribed, and never beside another one. */
  ghost predicate SocketInv(s: State) {
    && (s.bound.Some? <==> s.subscribers != map[])
    && (s.closing.Some? ==> s.bound.None?)
    && s.sockets == Held(s.bound) + Held(s.closing)
    && s.overlaps == 0
  }

  /** Every subscription number is one scanner's, and names at most one entry. */
  ghost predicate EpochInv(s: State) {
    && s.nextEpoch == |s.owners|
    && forall t | t in s.subscribers ::
         1 <= s.subscribers[t].epoch <= |s.owners| && s.owners[s.subscribers[t].epoch - 1] == t
  }

  ghost predicate Ordered(log: seq<Recorded>) {
    forall i, j | 0 <= i < j < |log| :: log[i].id < log[j].id
  }

  /** What the log holds was minted under that id and is not taken. */
  ghost predicate Genuine(log: seq<Recorded>, minted: seq<Press>, taken: set<nat>) {
    forall r | r in log :: 1 <= r.id <= |minted| && r.press == minted[r.id - 1] && r.id !in taken
  }

  /** An untaken press is still there while fewer than sixteen were recorded after it. */
  ghost predicate KeepsRecent(log: seq<Recorded>, minted: seq<Press>, taken: set<nat>) {
    forall id: nat | 1 <= id <= |minted| && id !in taken && |minted| - id < RECORDED_PRESSES ::
      Recorded(id, minted[id - 1]) in log
  }

  /** The press log: bounded, in order, untouched by what was taken, and complete for the recent ones. */
  ghost predicate LogInv(s: State) {
    && |s.presses| <= RECORDED_PRESSES
    && s.nextTrigger == |s.minted|
    && (forall id | id in s.taken :: 1 <= id <= |s.minted|)
    && Ordered(s.presses) && Genuine(s.presses, s.minted, s.taken) && KeepsRecent(s.presses, s.minted, s.taken)
  }

  /** Every trigger in a stream stands for the press recorded under its id. */
  ghost predicate QueueInv(s: State) {
    forall e, i | e in s.queues && 0 <= i < |s.queues[e]| :: Faithful(s.queues[e][i], s.minted)
  }

  ghost predicate Faithful(t: Trigger, minted: seq<Press>) {
    && 1 <= t.id <= |minted|
    && t.scanner == minted[t.id - 1].scanner
    && t.button == minted[t.id - 1].function_.ButtonIndex()
  }

  ghost predicate Inv(s: State) {
    SocketInv(s) && EpochInv(s) && LogInv(s) && QueueInv(s)
  }

  lemma {:induction false} SocketStep(s: State, action: Action)
    requires SocketInv(s)
    ensures SocketInv(Apply(s, action))
  {
    hide ScannerAt, Position, Last;
    if action.Subscribe? {
      var ready := EnsureBound(AwaitClosing(s), action.binds);
      assert ready.bound.Some? ==> action.scanner in Insert(ready, action.scanner, action.device).subscribers;
    } else if action.Unsubscribe? && s.subscribers == map[] {
      assert s.subscribers - {action.scanner} == map[];
    }
  }

  lemma {:induction false} EpochStep(s: State, action: Action)
    requires EpochInv(s)
    ensures EpochInv(Apply(s, action))
  {
    hide ScannerAt, Position, Last, EpochInv;
    if !action.Subscribe? {
      FewerKeepEpochs(s, Apply(s, action));
    } else {
      SubscribeKeepsEpochs(s, action.scanner, action.device, action.binds);
    }
  }

  lemma {:induction false} FewerKeepEpochs(s: State, t: State)
    requires t.owners == s.owners && t.nextEpoch == s.nextEpoch
    requires forall scanner | scanner in t.subscribers ::
               scanner in s.subscribers && t.subscribers[scanner] == s.subscribers[scanner]
    ensures EpochInv(s) ==> EpochInv(t)
  {
  }

  lemma {:induction false} SubscribeKeepsEpochs(s: State, scanner: Scanner, device: Address, binds: bool)
    requires EpochInv(s)
    ensures EpochInv(SubscribeStep(s, scanner, device, binds))
  {
    var t := SubscribeStep(s, scanner, device, binds);
    assert t.owners == s.owners || t.owners == s.owners + [scanner];
  }

  lemma {:induction false} LogKeepsRecent(log: seq<Recorded>, n: nat, r: Recorded, press: Press)
    requires |log| <= RECORDED_PRESSES && Ordered(log) && forall r | r in log :: 1 <= r.id <= n
    requires n + 1 - r.id < RECORDED_PRESSES && r in log
    ensures r in Last(log + [Recorded(n + 1, press)], RECORDED_PRESSES)
  {
    var k :| 0 <= k < |log| && log[k] == r;
    IncreasingSpread(log, n);
    var last := Last(log + [Recorded(n + 1, press)], RECORDED_PRESSES);
    var shift := |log| + 1 - |last|;
    assert last[k - shift] == log[k];
  }

  /** Strictly increasing ids leave room for one another. */
  lemma {:induction false} IncreasingSpread(log: seq<Recorded>, n: nat)
    requires log != [] && Ordered(log)
    requires forall r | r in log :: r.id <= n
    ensures log[0].id + |log| - 1 <= n
    decreases |log|
  {
    assert log[|log| - 1] in log;
    if |log| > 1 {
      var front := log[..|log| - 1];
      forall r | r in front
        ensures r.id <= log[|log| - 1].id - 1
      {
        var i :| 0 <= i < |front| && front[i] == r;
        assert log[i].id < log[|log| - 1].id;
      }
      assert log[0].id < log[|log| - 1].id;
      IncreasingSpread(front, log[|log| - 1].id - 1);
    }
  }

  lemma {:induction false} RecordKeepsLog(s: State, press: Press)
    requires LogInv(s)
    ensures LogInv(RecordStep(s, press))
  {
    hide Ordered, Genuine, KeepsRecent;
    RecordKeepsOrder(s, press);
    RecordKeepsRecent(s, press);
  }

  lemma {:induction false} RecordKeepsOrder(s: State, press: Press)
    requires LogInv(s)
    ensures var next := RecordStep(s, press);
            Ordered(next.presses) && Genuine(next.presses, next.minted, next.taken)
  {
    hide KeepsRecent;
    var next := RecordStep(s, press);
    var shift := |s.presses| + 1 - |next.presses|;
    forall i | 0 <= i < |next.presses| - 1
      ensures next.presses[i] == s.presses[i + shift] && next.presses[i] in s.presses
    {
    }
    assert next.presses[|next.presses| - 1] == Recorded(s.nextTrigger + 1, press);
  }

  lemma {:induction false} RecordKeepsRecent(s: State, press: Press)
    requires LogInv(s)
    ensures KeepsRecent(RecordStep(s, press).presses, s.minted + [press], s.taken)
  {
    var next := RecordStep(s, press);
    forall id: nat | 1 <= id <= |next.minted| && id !in next.taken && |next.minted| - id < RECORDED_PRESSES
      ensures Recorded(id, next.minted[id - 1]) in next.presses
    {
      if id == |next.minted| {
        assert next.presses[|next.presses| - 1] == Recorded(id, press);
      } else {
        LogKeepsRecent(s.presses, |s.minted|, Recorded(id, s.minted[id - 1]), press);
      }
    }
  }

  lemma {:induction false} TakeKeepsLog(s: State, scanner: Scanner, id: nat)
    requires LogInv(s)
    ensures LogInv(TakePressStep(s, scanner, id).0)
  {
    var at := Position(s.presses, scanner, id);
    if at.Some? {
      hide Position;
      assert s.presses[at.value] in s.presses;
      RemovedAt(s.presses, at.value);
    }
  }

  lemma {:induction false} RemovedAt(log: seq<Recorded>, at: nat)
    requires at < |log| && Ordered(log)
    ensures Ordered(log[..at] + log[at + 1..])
    ensures forall r :: r in log[..at] + log[at + 1..] <==> r in log && r.id != log[at].id
  {
    var left := log[..at] + log[at + 1..];
    assert forall k | 0 <= k < |left| :: left[k] == log[if k < at then k else k + 1];
    forall r
      ensures r in left <==> r in log && r.id != log[at].id
    {
      RemovedOne(log, at, r);
    }
  }

  lemma {:induction false} RemovedOne(log: seq<Recorded>, at: nat, r: Recorded)
    requires at < |log| && Ordered(log)
    ensures r in log[..at] + log[at + 1..] <==> r in log && r.id != log[at].id
  {
    if r in log && r.id != log[at].id {
      var j :| 0 <= j < |log| && log[j] == r;
      assert r in log[..at] || r in log[at + 1..] by {
        if j < at { assert log[..at][j] == r; } else { assert log[at + 1..][j - at - 1] == r; }
      }
    }
  }

  lemma {:induction false} LogStep(s: State, action: Action)
    requires LogInv(s)
    ensures LogInv(Apply(s, action))
  {
    hide LogInv, Position, Last;
    match action {
      case Dispatch(from, function_, user) =>
        if ScannerAt(s.subscribers, from).Some? {
          RecordKeepsLog(s, Press(ScannerAt(s.subscribers, from).value, from, function_, user));
          SameLog(RecordStep(s, Press(ScannerAt(s.subscribers, from).value, from, function_, user)), Apply(s, action));
        }
      case TakePress(scanner, id) => TakeKeepsLog(s, scanner, id);
      case _ => SameLog(s, Apply(s, action));
    }
  }

  lemma {:induction false} SameLog(s: State, t: State)
    requires s.presses == t.presses && s.minted == t.minted && s.taken == t.taken && s.nextTrigger == t.nextTrigger
    ensures LogInv(s) == LogInv(t)
  {
  }

  lemma {:induction false} QueueStep(s: State, action: Action)
    requires QueueInv(s) && s.nextTrigger == |s.minted|
    ensures QueueInv(Apply(s, action))
  {
    hide Position, Last;
  }

  lemma {:induction false} InitiallyConsistent()
    ensures Inv(INITIAL)
  {
  }

  lemma {:induction false} InvStep(s: State, action: Action)
    requires Inv(s)
    ensures Inv(Apply(s, action))
  {
    hide Apply, SocketInv, EpochInv, QueueInv;
    SocketStep(s, action);
    EpochStep(s, action);
    LogStep(s, action);
    QueueStep(s, action);
  }

  /** In every reachable state the listener is consistent. */
  lemma {:induction false} EveryRunKeepsTheInvariant(s: State, actions: seq<Action>)
    requires Inv(s)
    ensures Inv(Run(s, actions))
    decreases |actions|
  {
    hide Apply, Inv;
    if actions != [] {
      InvStep(s, actions[0]);
      EveryRunKeepsTheInvariant(Apply(s, actions[0]), actions[1..]);
    }
  }

  /** Every trigger a stream ever yields names the scanner, and the key, of the press behind its id. */
  lemma {:induction false} YieldedTriggersAreFaithful(actions: seq<Action>, epoch: nat)
    ensures var s := Run(INITIAL, actions);
            PollStep(s, epoch).1.Some? ==> Faithful(PollStep(s, epoch).1.value, s.minted)
  {
    hide Run, SocketInv, EpochInv, LogInv;
    InitiallyConsistent();
    EveryRunKeepsTheInvariant(INITIAL, actions);
  }

  /** Dropping a stream takes away its own entry if it still has one, and nobody else's. */
  lemma {:induction false} DropRemovesOnlyItsOwn(actions: seq<Action>, scanner: Scanner, epoch: nat)
    requires var s := Run(INITIAL, actions); 1 <= epoch <= |s.owners| && s.owners[epoch - 1] == scanner
    ensures var s := Run(INITIAL, actions);
            forall t | t in s.subscribers ::
              t in Apply(s, Drop(scanner, epoch)).subscribers <==> s.subscribers[t].epoch != epoch
  {
    hide Run;
    EveryRunKeepsTheInvariant(INITIAL, actions);
  }

  lemma {:induction false} TakenStaysTaken(s: State, actions: seq<Action>, id: nat)
    requires id in s.taken
    ensures id in Run(s, actions).taken
    decreases |actions|
  {
    hide ScannerAt, Position, Last;
    if actions != [] {
      TakenStaysTaken(Apply(s, actions[0]), actions[1..], id);
    }
  }

  /** What is taken is the press minted under that id, and its scanner's. */
  lemma {:induction false} TakenAsMinted(s: State, scanner: Scanner, id: nat)
    requires LogInv(s)
    ensures var r := TakePressStep(s, scanner, id);
            r.1.Some? ==> && r.1.value.scanner == scanner && id in r.0.taken
                          && 1 <= id <= |r.0.minted| && r.1.value == r.0.minted[id - 1]
  {
    hide Position, KeepsRecent, Ordered;
    var at := Position(s.presses, scanner, id);
    if at.Some? {
      assert s.presses[at.value] in s.presses;
    }
  }

  lemma {:induction false} NotTwice(s: State, scanner: Scanner, id: nat)
    requires LogInv(s) && id in s.taken
    ensures TakePressStep(s, scanner, id).1 == None
  {
    hide Position, KeepsRecent, Ordered;
    forall i | 0 <= i < |s.presses|
      ensures s.presses[i].id != id
    {
      assert s.presses[i] in s.presses;
    }
  }

  /** A trigger id yields its press once: whatever happens afterwards, nobody gets it again. */
  lemma {:induction false} AtMostOnePressPerTrigger(
    before: seq<Action>, scanner: Scanner, id: nat, between: seq<Action>, again: Scanner)
    requires TakePressStep(Run(INITIAL, before), scanner, id).1.Some?
    ensures var first := TakePressStep(Run(INITIAL, before), scanner, id);
            && first.1.value.scanner == scanner
            && 1 <= id <= |first.0.minted| && first.1.value == first.0.minted[id - 1]
            && TakePressStep(Run(first.0, between), again, id).1 == None
  {
    hide Run, SocketInv, EpochInv, LogInv, QueueInv, TakePressStep;
    InitiallyConsistent();
    var s := Run(INITIAL, before);
    EveryRunKeepsTheInvariant(INITIAL, before);
    var first := TakePressStep(s, scanner, id);
    TakenAsMinted(s, scanner, id);
    InvStep(s, TakePress(scanner, id));
    EveryRunKeepsTheInvariant(first.0, between);
    TakenStaysTaken(first.0, between, id);
    NotTwice(Run(first.0, between), again, id);
  }

  lemma {:induction false} MintedStays(s: State, actions: seq<Action>)
    ensures s.minted <= Run(s, actions).minted
    decreases |actions|
  {
    hide ScannerAt, Position, Last;
    if actions != [] {
      MintedStays(Apply(s, actions[0]), actions[1..]);
    }
  }

  lemma {:induction false} StillThere(s: State, scanner: Scanner, id: nat)
    requires LogInv(s) && 1 <= id <= |s.minted| && s.minted[id - 1].scanner == scanner
    requires |s.minted| - id < RECORDED_PRESSES && id !in s.taken
    ensures TakePressStep(s, scanner, id).1 == Some(s.minted[id - 1])
  {
    hide Position, Ordered;
    assert Recorded(id, s.minted[id - 1]) in s.presses;
    var at := Position(s.presses, scanner, id);
    if at.Some? {
      assert s.presses[at.value] in s.presses;
    }
  }

  /**
   What a scanner's key sends is what is taken under its id, by that scanner, whatever happens in between, while
   fewer than sixteen presses came after it and nobody took it before.
   */
  lemma {:induction false} DispatchedIsTaken(
    s: State, from: Address, function_: Function, user: string, scanner: Scanner, actions: seq<Action>)
    requires Inv(s) && FirstAt(s.subscribers, from, scanner)
    ensures var sent := Apply(s, Dispatch(from, function_, user));
            var id, later := sent.nextTrigger, Run(sent, actions);
            |later.minted| < id + 16 && id !in later.taken ==>
              TakePressStep(later, scanner, id).1 == Some(Press(scanner, from, function_, user))
  {
    hide DispatchStep, TakePressStep, Run, SocketInv, EpochInv, QueueInv, LogInv;
    var sent := Apply(s, Dispatch(from, function_, user));
    DispatchIs(s, from, function_, user);
    LogCounts(s);
    InvStep(s, Dispatch(from, function_, user));
    EveryRunKeepsTheInvariant(sent, actions);
    MintedStays(sent, actions);
    var id, later := sent.nextTrigger, Run(sent, actions);
    if |later.minted| < id + 16 && id !in later.taken {
      StillThere(later, scanner, id);
    }
  }

  lemma {:induction false} LogCounts(s: State)
    requires LogInv(s)
    ensures s.nextTrigger == |s.minted|
  {
  }

  // ----- What the streams yield -----

  /** A trigger as it came out of the stream with this epoch. */
  datatype Yield = Yield(epoch: nat, trigger: Trigger)

  /** Everything the streams yield along a run, in order. */
  function Yields(s: State, actions: seq<Action>): seq<Yield>
    decreases |actions|
  {
    if actions == [] then []
    else
      (if actions[0].Poll? && PollStep(s, actions[0].epoch).1.Some?
       then [Yield(actions[0].epoch, PollStep(s, actions[0].epoch).1.value)] else [])
      + Yields(Apply(s, actions[0]), actions[1..])
  }

  function Queue(s: State, epoch: nat): seq<Trigger> { if epoch in s.queues then s.queues[epoch] else [] }

  /** Ids count up along every queue, are in one queue each, and were minted. */
  ghost predicate OrderInv(s: State) {
    && (forall e, i | 0 <= i < |Queue(s, e)| :: Queue(s, e)[i].id <= s.nextTrigger)
    && (forall e, i, j | 0 <= i < j < |Queue(s, e)| :: Queue(s, e)[i].id < Queue(s, e)[j].id)
    && (forall e, d, i, j | 0 <= i < |Queue(s, e)| && 0 <= j < |Queue(s, d)| && e != d ::
          Queue(s, e)[i].id != Queue(s, d)[j].id)
  }

  /** Each queue is what it was, or lost its first trigger, or is gone. */
  ghost predicate QueuesShrink(s: State, t: State) {
    && t.nextTrigger == s.nextTrigger
    && forall e :: || Queue(t, e) == Queue(s, e) || Queue(t, e) == []
                   || (Queue(s, e) != [] && Queue(t, e) == Queue(s, e)[1..])
  }

  /** One queue got a trigger newer than all there were, if it had room. */
  ghost predicate QueueGrows(s: State, t: State, at: nat) {
    && t.nextTrigger == s.nextTrigger + 1
    && (forall e | e != at :: Queue(t, e) == Queue(s, e))
    && (Queue(t, at) == Queue(s, at)
        || (Queue(t, at) != [] && Queue(t, at)[..|Queue(t, at)| - 1] == Queue(s, at)
            && Queue(t, at)[|Queue(t, at)| - 1].id == t.nextTrigger))
  }

  lemma {:induction false} ShrinkingKeepsOrder(s: State, t: State)
    requires OrderInv(s) && QueuesShrink(s, t)
    ensures OrderInv(t)
  {
    forall e, i | 0 <= i < |Queue(t, e)|
      ensures exists k :: 0 <= k < |Queue(s, e)| && Queue(s, e)[k] == Queue(t, e)[i]
    {
      if Queue(t, e) == Queue(s, e) {
        assert Queue(s, e)[i] == Queue(t, e)[i];
      } else {
        assert Queue(s, e)[i + 1] == Queue(t, e)[i];
      }
    }
    forall e, i, j | 0 <= i < j < |Queue(t, e)|
      ensures Queue(t, e)[i].id < Queue(t, e)[j].id
    {
      if Queue(t, e) != Queue(s, e) {
        assert Queue(t, e)[i] == Queue(s, e)[i + 1] && Queue(t, e)[j] == Queue(s, e)[j + 1];
      }
    }
  }

  lemma {:induction false} GrowingKeepsOrder(s: State, t: State, at: nat)
    requires OrderInv(s) && QueueGrows(s, t, at)
    ensures OrderInv(t)
  {
    forall e, i | 0 <= i < |Queue(t, e)|
      ensures (i < |Queue(s, e)| && Queue(t, e)[i] == Queue(s, e)[i])
              || (e == at && i == |Queue(s, e)| && Queue(t, e)[i].id == t.nextTrigger)
    {
      if e == at && Queue(t, at) != Queue(s, at) && i < |Queue(s, at)| {
        assert Queue(t, at)[..|Queue(t, at)| - 1][i] == Queue(t, at)[i];
      }
    }
  }

  lemma {:induction false} QueueStepKinds(s: State, action: Action) returns (at: nat)
    ensures QueuesShrink(s, Apply(s, action)) || QueueGrows(s, Apply(s, action), at)
    ensures action.Poll? ==> QueuesShrink(s, Apply(s, action))
  {
    hide Position, Last, ScannerAt;
    at := 0;
    if action.Dispatch? && ScannerAt(s.subscribers, action.from).Some? {
      at := s.subscribers[ScannerAt(s.subscribers, action.from).value].epoch;
      var t := Apply(s, action);
      if Queue(t, at) != Queue(s, at) {
        assert Queue(t, at)[..|Queue(t, at)| - 1] == Queue(s, at);
      }
    }
  }

  /** It waits in its stream's queue, or is still to be minted. */
  ghost predicate ToCome(s: State, y: Yield) {
    y.trigger.id > s.nextTrigger || y.trigger in Queue(s, y.epoch)
  }

  ghost predicate InOrder(ys: seq<Yield>) {
    forall i, j | 0 <= i < j < |ys| ::
      && ys[i].trigger.id != ys[j].trigger.id
      && (ys[i].epoch == ys[j].epoch ==> ys[i].trigger.id < ys[j].trigger.id)
  }

  lemma {:induction false} YieldsAreInOrder(s: State, actions: seq<Action>)
    requires OrderInv(s)
    ensures InOrder(Yields(s, actions)) && forall y | y in Yields(s, actions) :: ToCome(s, y)
    decreases |actions|
  {
    hide Apply, OrderInv, PollStep, QueuesShrink, QueueGrows;
    if actions != [] {
      var t := Apply(s, actions[0]);
      var later := Yields(t, actions[1..]);
      var at := QueueStepKinds(s, actions[0]);
      if QueuesShrink(s, t) { ShrinkingKeepsOrder(s, t); } else { GrowingKeepsOrder(s, t, at); }
      YieldsAreInOrder(t, actions[1..]);
      forall y | y in later
        ensures ToCome(s, y)
      {
        ToComeBefore(s, t, at, y);
      }
      if actions[0].Poll? && PollStep(s, actions[0].epoch).1.Some? {
        var first := Yield(actions[0].epoch, PollStep(s, actions[0].epoch).1.value);
        assert Yields(s, actions) == [first] + later;
        forall y | y in later
          ensures first.trigger.id != y.trigger.id
          ensures first.epoch == y.epoch ==> first.trigger.id < y.trigger.id
        {
          PollIsAStep(s, actions[0].epoch);
          FirstIsBefore(s, actions[0].epoch, y);
        }
        FirstToCome(s, actions[0].epoch);
      } else {
        assert Yields(s, actions) == later;
      }
    }
  }

  lemma {:induction false} ToComeBefore(s: State, t: State, at: nat, y: Yield)
    requires (QueuesShrink(s, t) || QueueGrows(s, t, at)) && ToCome(t, y)
    ensures ToCome(s, y)
  {
    if y.trigger in Queue(t, y.epoch) {
      var k :| 0 <= k < |Queue(t, y.epoch)| && Queue(t, y.epoch)[k] == y.trigger;
      if QueuesShrink(s, t) {
        assert Queue(t, y.epoch) != Queue(s, y.epoch) ==> Queue(s, y.epoch)[k + 1] == y.trigger;
      } else if y.epoch == at && Queue(t, at) != Queue(s, at) && k < |Queue(t, at)| - 1 {
        assert Queue(t, at)[..|Queue(t, at)| - 1][k] == y.trigger;
      }
    }
  }

  lemma {:induction false} FirstToCome(s: State, epoch: nat)
    ensures PollStep(s, epoch).1.Some? ==> ToCome(s, Yield(epoch, PollStep(s, epoch).1.value))
  {
  }

  lemma {:induction false} PollIsAStep(s: State, epoch: nat)
    ensures Apply(s, Poll(epoch)) == PollStep(s, epoch).0
  {
  }

  lemma {:induction false} FirstIsBefore(s: State, epoch: nat, y: Yield)
    requires OrderInv(s) && PollStep(s, epoch).1.Some? && ToCome(PollStep(s, epoch).0, y)
    ensures var first := PollStep(s, epoch).1.value;
            first.id != y.trigger.id && (epoch == y.epoch ==> first.id < y.trigger.id)
  {
    var t := PollStep(s, epoch).0;
    assert Queue(s, epoch)[0].id <= s.nextTrigger;
    if y.trigger in Queue(t, y.epoch) {
      var k :| 0 <= k < |Queue(t, y.epoch)| && Queue(t, y.epoch)[k] == y.trigger;
      if y.epoch == epoch {
        assert Queue(s, epoch)[k + 1] == y.trigger;
      } else {
        assert Queue(s, y.epoch)[k] == y.trigger;
      }
    }
  }

  /**
   Over every run each stream yields its triggers in the order of the presses, and no trigger comes twice, of
   one stream or of two.
   */
  lemma {:induction false} EveryStreamYieldsInOrder(actions: seq<Action>)
    ensures var ys := Yields(INITIAL, actions);
            forall i, j | 0 <= i < j < |ys| ::
              && ys[i].trigger.id != ys[j].trigger.id
              && (ys[i].epoch == ys[j].epoch ==> ys[i].trigger.id < ys[j].trigger.id)
  {
    hide Yields;
    YieldsAreInOrder(INITIAL, actions);
  }
}

/**
 The gaps in the listener's locking. Subscribing holds the gate throughout but the state lock only in
 pieces, and dropping a stream takes no gate; nor does a receive task that fails, which clears the state
 first and closes its socket afterwards. Either can come between two pieces of a subscribe call.
 */
module ListenerWindow {
  import opened Listener
  import opened PanelFunction
  import opened Wrappers

  /** Where the one subscribe call inside the gate stands. */
  datatype Stage =
    | Outside
    | Awaited(scanner: Scanner, device: Address)
    | Spawned(scanner: Scanner, device: Address, task: Task)
    | Checked(scanner: Scanner, device: Address)

  /** `failed` are the tasks that cleared the state and have not closed their socket yet. */
  datatype Fine = Fine(state: State, stage: Stage, failed: set<Task>)

  datatype FineAction =
    | Begin(scanner: Scanner, device: Address)
    | Check(binds: bool)
    | Record
    | Finish
    | Fail(task: Task)
    | Close(task: Task)
    | Whole(action: Action)

  const START := Fine(INITIAL, Outside, {})

  /** Operations that take the gate wait for it: here they do not happen while it is held. */
  predicate NeedsGate(action: Action) { action.Subscribe? || action.Unsubscribe? }

  /** A task that is bound, or spawned and about to be, and still receiving. */
  predicate Receives(f: Fine, task: Task) {
    && task in f.state.sockets && task !in f.failed
    && (f.state.bound == Some(task) || (f.stage.Spawned? && f.stage.task == task))
  }

  function FineApply(f: Fine, action: FineAction): Fine {
    var s := f.state;
    match action
    case Begin(scanner, device) =>
      if !f.stage.Outside? then f
      else f.(state := AwaitClosing(s), stage := Awaited(scanner, device), failed := f.failed - Held(s.closing))
    case Check(binds) =>
      if !f.stage.Awaited? then f
      else if s.bound.Some? then f.(stage := Checked(f.stage.scanner, f.stage.device))
      else if !binds then f.(stage := Outside)
      else
        f.(state := s.(tasks := s.tasks + 1, sockets := s.sockets + {s.tasks},
                       overlaps := s.overlaps + if s.sockets == {} then 0 else 1),
           stage := Spawned(f.stage.scanner, f.stage.device, s.tasks))
    case Record =>
      if !f.stage.Spawned? then f
      else f.(state := s.(bound := Some(f.stage.task)), stage := Checked(f.stage.scanner, f.stage.device))
    case Finish =>
      if !f.stage.Checked? then f
      else f.(state := Insert(s, f.stage.scanner, f.stage.device), stage := Outside)
    case Fail(task) =>
      if !Receives(f, task) then f
      else f.(state := s.(subscribers := map[], bound := None), failed := f.failed + {task})
    case Close(task) =>
      if task !in f.failed then f
      else f.(state := s.(sockets := s.sockets - {task}), failed := f.failed - {task})
    case Whole(whole) =>
      if whole.Subscribe? || whole.ReceiveFailed? || (!f.stage.Outside? && NeedsGate(whole)) then f
      else f.(state := Apply(s, whole))
  }

  function FineRun(f: Fine, actions: seq<FineAction>): Fine
    decreases |actions|
  {
    if actions == [] then f else FineRun(FineApply(f, actions[0]), actions[1..])
  }

  /** Without interference the pieces of a subscribe call are the one step. */
  lemma {:induction false} PiecesAreTheStep(s: State, scanner: Scanner, device: Address, binds: bool)
    ensures FineRun(Fine(s, Outside, {}), [Begin(scanner, device), Check(binds), Record, Finish])
            == Fine(SubscribeStep(s, scanner, device, binds), Outside, {})
  {
    hide Insert;
    FineRunFour(Fine(s, Outside, {}), Begin(scanner, device), Check(binds), Record, Finish);
  }

  /** And so are the two pieces of a failure. */
  lemma {:induction false} FailureIsTheStep(s: State)
    requires s.bound.Some? && s.bound.value in s.sockets
    ensures FineRun(Fine(s, Outside, {}), [Fail(s.bound.value), Close(s.bound.value)])
            == Fine(ReceiveFailedStep(s), Outside, {})
  {
    FineRunTwo(Fine(s, Outside, {}), Fail(s.bound.value), Close(s.bound.value));
  }

  // ----- Exactly when it goes wrong -----

  /** The only subscriber's own stream is dropped. */
  predicate DropsTheLast(s: State, action: FineAction) {
    && action.Whole? && action.action.Drop? && action.action.scanner in s.subscribers
    && s.subscribers.Keys == {action.action.scanner}
    && s.subscribers[action.action.scanner].epoch == action.action.epoch
  }

  /** The listener is emptied, or its new task lost, inside a subscribe call, and the next piece does not see it. */
  predicate Empties(f: Fine, action: FineAction) {
    match f.stage
    case Outside => false
    case Awaited(_, _) => DropsTheLast(f.state, action)
    case Spawned(_, _, task) => action == Fail(task) && Receives(f, task)
    case Checked(_, _) =>
      DropsTheLast(f.state, action) || (action.Fail? && f.state.bound == Some(action.task) && Receives(f, action.task))
  }

  /** Whether the piece that is under way was disturbed, after this action; each piece starts undisturbed. */
  predicate Disturbed(f: Fine, disturbed: bool, action: FineAction) {
    if FineApply(f, action).stage != f.stage then false else disturbed || Empties(f, action)
  }

  /** A piece goes on after having been disturbed, or binds before a failed task has closed its socket. */
  predicate GoesWrong(f: Fine, disturbed: bool, action: FineAction) {
    match f.stage
    case Outside => false
    case Awaited(_, _) => action == Check(true) && (disturbed || f.failed != {})
    case Spawned(_, _, _) => action == Record && disturbed
    case Checked(_, _) => action == Finish && disturbed
  }

  predicate NeverGoesWrong(f: Fine, disturbed: bool, actions: seq<FineAction>)
    decreases |actions|
  {
    actions == []
    || (!GoesWrong(f, disturbed, actions[0])
        && NeverGoesWrong(FineApply(f, actions[0]), Disturbed(f, disturbed, actions[0]), actions[1..]))
  }

  /** No socket bound beside another, the bound one receiving, and bound exactly while somebody is subscribed. */
  ghost predicate Sound(f: Fine) {
    && f.state.overlaps == 0
    && (f.state.bound.Some? ==> Receives(f, f.state.bound.value))
    && (f.stage.Outside? ==>
          && (f.state.bound.Some? <==> f.state.subscribers != map[])
          && (f.state.closing.Some? ==> f.state.bound.None?)
          && f.state.sockets == Held(f.state.bound) + Held(f.state.closing) + f.failed)
  }

  ghost predicate SoundThroughout(f: Fine, actions: seq<FineAction>)
    decreases |actions|
  {
    Sound(f) && (actions != [] ==> SoundThroughout(FineApply(f, actions[0]), actions[1..]))
  }

  function Fresh(f: Fine, disturbed: bool): set<Task> {
    if f.stage.Spawned? && !disturbed then {f.stage.task} else {}
  }

  /** What holds inside the pieces, and what being disturbed means for them. */
  ghost predicate WindowInv(f: Fine, disturbed: bool) {
    var s := f.state;
    && s.overlaps == 0
    && s.sockets == Held(s.bound) + Held(s.closing) + f.failed + Fresh(f, disturbed)
    && (forall t | t in s.sockets :: t < s.tasks)
    && (s.bound.Some? || s.closing.Some? || (f.stage.Spawned? && !disturbed) ==> f.failed == {})
    && (s.closing.Some? ==> s.bound.None?)
    && (s.subscribers != map[] ==> s.bound.Some?)
    && match f.stage
       case Outside => s.bound.Some? ==> s.subscribers != map[]
       case Awaited(_, _) => (s.bound.Some? ==> s.subscribers != map[]) && (disturbed <==> s.closing.Some?)
       case Spawned(_, _, task) => s.bound.None? && s.closing.None? && (disturbed ==> !Receives(f, task))
       case Checked(_, _) => disturbed <==> s.bound.None?
  }

  lemma {:induction false} WindowIsSound(f: Fine, disturbed: bool)
    requires WindowInv(f, disturbed)
    ensures Sound(f)
  {
  }

  lemma {:induction false} PieceKeepsWindow(f: Fine, disturbed: bool, action: FineAction)
    requires WindowInv(f, disturbed) && (action.Begin? || action.Check? || action.Record? || action.Finish?)
    requires !GoesWrong(f, disturbed, action)
    ensures WindowInv(FineApply(f, action), Disturbed(f, disturbed, action))
  {
    if action.Finish? && f.stage.Checked? {
      assert f.stage.scanner in FineApply(f, action).state.subscribers;
    }
  }

  lemma {:induction false} FailureKeepsWindow(f: Fine, disturbed: bool, action: FineAction)
    requires WindowInv(f, disturbed) && (action.Fail? || action.Close?)
    ensures WindowInv(FineApply(f, action), Disturbed(f, disturbed, action))
  {
  }

  lemma {:induction false} DropKeepsWindow(f: Fine, disturbed: bool, scanner: Scanner, epoch: nat)
    requires WindowInv(f, disturbed)
    ensures WindowInv(FineApply(f, Whole(Drop(scanner, epoch))), Disturbed(f, disturbed, Whole(Drop(scanner, epoch))))
  {
    if scanner in f.state.subscribers {
      var left := f.state.subscribers - {scanner};
      assert left.Keys == f.state.subscribers.Keys - {scanner};
      assert left == map[] <==> left.Keys == {};
      assert left.Keys == {} ==> f.state.subscribers.Keys == {scanner};
    }
  }

  lemma {:induction false} OtherKeepsWindow(f: Fine, disturbed: bool, action: Action)
    requires WindowInv(f, disturbed) && !action.Drop?
    ensures WindowInv(FineApply(f, Whole(action)), Disturbed(f, disturbed, Whole(action)))
  {
    hide ScannerAt, Position, Last;
    if action.Unsubscribe? && f.state.subscribers == map[] {
      assert f.state.subscribers - {action.scanner} == map[];
    }
  }

  lemma {:induction false} WindowStep(f: Fine, disturbed: bool, action: FineAction)
    requires WindowInv(f, disturbed) && !GoesWrong(f, disturbed, action)
    ensures WindowInv(FineApply(f, action), Disturbed(f, disturbed, action))
  {
    hide WindowInv, FineApply, Disturbed, GoesWrong;
    if action.Fail? || action.Close? {
      FailureKeepsWindow(f, disturbed, action);
    } else if !action.Whole? {
      PieceKeepsWindow(f, disturbed, action);
    } else if action.action.Drop? {
      DropKeepsWindow(f, disturbed, action.action.scanner, action.action.epoch);
    } else {
      OtherKeepsWindow(f, disturbed, action.action);
    }
  }

  /** What goes wrong shows at once: two sockets, a bound task that is dead, or a subscriber without a socket. */
  lemma {:induction false} WrongShows(f: Fine, disturbed: bool, action: FineAction)
    requires WindowInv(f, disturbed) && GoesWrong(f, disturbed, action)
    ensures !Sound(FineApply(f, action))
  {
    if f.stage.Checked? {
      assert f.stage.scanner in FineApply(f, Finish).state.subscribers;
    }
  }

  /**
   The listener is sound in exactly the runs where no piece of a subscribe call goes on after the only
   subscriber was dropped in it or the task it relies on failed in it, and none binds between a failed task's
   clearing the state and its closing the socket.
   */
  lemma {:induction false} ExactlyWhenNoWindowIsHit(f: Fine, disturbed: bool, actions: seq<FineAction>)
    requires WindowInv(f, disturbed)
    ensures SoundThroughout(f, actions) <==> NeverGoesWrong(f, disturbed, actions)
    decreases |actions|
  {
    hide FineApply, Disturbed, GoesWrong, Sound, WindowInv;
    WindowIsSound(f, disturbed);
    if actions != [] {
      if GoesWrong(f, disturbed, actions[0]) {
        WrongShows(f, disturbed, actions[0]);
      } else {
        WindowStep(f, disturbed, actions[0]);
        ExactlyWhenNoWindowIsHit(FineApply(f, actions[0]), Disturbed(f, disturbed, actions[0]), actions[1..]);
      }
    }
  }

  lemma {:induction false} StartsSound()
    ensures WindowInv(START, false)
  {
  }

  // ----- That it can go wrong -----

  /** Scanner 1 is subscribed. */
  const SUBSCRIBED: seq<FineAction> := [Begin(1, 10), Check(true), Record, Finish]

  lemma {:induction false} AfterSubscribing() returns (f: Fine)
    ensures f == FineRun(START, SUBSCRIBED)
    ensures f.stage == Outside && f.state.subscribers == map[1 := Subscriber(10, 1)] && f.failed == {}
    ensures f.state.bound == Some(0) && f.state.closing == None && f.state.sockets == {0}
    ensures f.state.tasks == 1 && f.state.nextEpoch == 1 && f.state.overlaps == 0
  {
    FineRunFour(START, Begin(1, 10), Check(true), Record, Finish);
    f := FineRun(START, SUBSCRIBED);
  }

  /** Dropped between the wait and the check: the second subscriber binds beside the first one's socket. */
  lemma {:induction false} ADropBeforeTheCheck()
    ensures FineRun(FineRun(START, SUBSCRIBED), [Begin(2, 20), Whole(Drop(1, 1)), Check(true)]).state.overlaps == 1
  {
    var f := AfterSubscribing();
    assert f.state.subscribers - {1} == map[];
    FineRunThree(f, Begin(2, 20), Whole(Drop(1, 1)), Check(true));
  }

  /**
   Dropped between the check and the insert: the second subscriber ends up subscribed with no socket.
   Dropping it in turn forgets the parked task, so the third binds while the first socket may still be open.
   */
  lemma {:induction false} ADropAfterTheCheck()
    ensures var hit := FineRun(FineRun(START, SUBSCRIBED), [Begin(2, 20), Check(true), Whole(Drop(1, 1)), Finish]);
            && 2 in hit.state.subscribers && hit.state.bound == None && hit.stage == Outside
            && FineRun(hit, [Whole(Drop(2, 2)), Begin(3, 30), Check(true)]).state.overlaps == 1
  {
    var f := AfterSubscribing();
    FineRunFour(f, Begin(2, 20), Check(true), Whole(Drop(1, 1)), Finish);
    var dropped := FineApply(FineApply(FineApply(f, Begin(2, 20)), Check(true)), Whole(Drop(1, 1)));
    assert f.state.subscribers - {1} == map[];
    assert dropped.state.bound == None && dropped.state.closing == Some(0) && dropped.state.sockets == {0};
    var hit := FineApply(dropped, Finish);
    assert hit.state.subscribers == map[2 := Subscriber(20, 2)];
    assert hit.state.subscribers - {2} == map[];
    FineRunThree(hit, Whole(Drop(2, 2)), Begin(3, 30), Check(true));
  }

  /** Failed between its spawning and its being recorded: a dead task stands for the socket of a subscriber. */
  lemma {:induction false} AFailureBeforeTheRecord()
    ensures var hit := FineRun(START, [Begin(1, 10), Check(true), Fail(0), Record]);
            var left := FineRun(hit, [Finish, Close(0)]);
            && 1 in left.state.subscribers && left.state.bound == Some(0) && left.state.sockets == {}
  {
    FineRunFour(START, Begin(1, 10), Check(true), Fail(0), Record);
    FineRunTwo(FineRun(START, [Begin(1, 10), Check(true), Fail(0), Record]), Finish, Close(0));
  }

  /** A new bind after a failed task has cleared the state and before it closes its socket. */
  lemma {:induction false} ABindBeforeTheClose()
    ensures FineRun(FineRun(START, SUBSCRIBED), [Fail(0), Begin(1, 10), Check(true)]).state.overlaps == 1
  {
    var f := AfterSubscribing();
    FineRunThree(f, Fail(0), Begin(1, 10), Check(true));
  }

  lemma {:induction false} FineRunTwo(f: Fine, a: FineAction, b: FineAction)
    ensures FineRun(f, [a, b]) == FineApply(FineApply(f, a), b)
  {
    hide FineApply;
    assert [a, b][1..] == [b] && [b][1..] == [];
    assert FineRun(FineApply(f, a), [b]) == FineRun(FineApply(FineApply(f, a), b), []);
  }

  lemma {:induction false} FineRunThree(f: Fine, a: FineAction, b: FineAction, c: FineAction)
    ensures FineRun(f, [a, b, c]) == FineApply(FineApply(FineApply(f, a), b), c)
  {
    hide FineApply;
    assert [a, b, c][1..] == [b, c];
    FineRunTwo(FineApply(f, a), b, c);
  }

  lemma {:induction false} FineRunFour(f: Fine, a: FineAction, b: FineAction, c: FineAction, d: FineAction)
    ensures FineRun(f, [a, b, c, d]) == FineApply(FineApply(FineApply(FineApply(f, a), b), c), d)
  {
    hide FineApply;
    assert [a, b, c, d][1..] == [b, c, d];
    FineRunThree(FineApply(f, a), b, c, d);
  }
}

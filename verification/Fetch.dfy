/**
 One fetch at a time for each scanner, and each press fetched once. A step is one hold of the lock on the
 fetch state; calls, and the streams they return, take theirs in any order.
 */
module Fetch {
  import opened Wrappers
  import opened Weaving

  type Scanner = nat
  type Trigger = nat
  type SaneName = string
  type Call = nat

  datatype Key = Key(scanner: Scanner, trigger: Trigger)

  datatype FetchError = UnknownJob | Busy | UnknownScanner | CannotStart

  /** Where a call stands; `Streaming` is the stream it returned, until that is dropped. */
  datatype Phase =
    | Begun(key: Key)
    | Named(key: Key, name: SaneName)
    | Failing(key: Key, error: FetchError)
    | Started(key: Key)
    | Streaming(key: Key)
    | Refused(error: FetchError)
    | Over

  datatype State = State(
    active: seq<Scanner>,
    fetched: seq<Key>,
    saneNames: map<Scanner, SaneName>,
    calls: map<Call, Phase>)

  datatype Event =
    | Begins(call: Call, key: Key)
    | LooksUp(call: Call)
    | Spawns(call: Call, ok: bool)
    | Releases(call: Call)
    | Records(call: Call)
    | DropsStream(call: Call)
    | Remembers(names: map<Scanner, SaneName>)

  /** All but the scanner, every time it is there. */
  function Retain(active: seq<Scanner>, scanner: Scanner): (r: seq<Scanner>)
    ensures forall s :: s in r <==> s in active && s != scanner
    ensures Distinct(active) ==> Distinct(r)
  {
    if active == [] then []
    else
      var rest := Retain(active[1..], scanner);
      assert Distinct(active) ==> Distinct(active[1..]) && active[0] !in active[1..];
      if active[0] == scanner then rest else [active[0]] + rest
  }

  ghost predicate Distinct<T>(s: seq<T>) { forall i, j | 0 <= i < j < |s| :: s[i] != s[j] }

  function To(st: State, call: Call, phase: Phase): State { st.(calls := st.calls[call := phase]) }

  function Step(st: State, e: Event): State {
    if e.Remembers? then st.(saneNames := e.names)
    else if e.Begins? then
      if e.call in st.calls then st
      else if e.key in st.fetched then To(st, e.call, Refused(UnknownJob))
      else if e.key.scanner in st.active then To(st, e.call, Refused(Busy))
      else To(st.(active := st.active + [e.key.scanner]), e.call, Begun(e.key))
    else if e.call !in st.calls then st
    else
      match (st.calls[e.call], e)
      case (Begun(key), LooksUp(c)) =>
        To(st, c, if key.scanner in st.saneNames then Named(key, st.saneNames[key.scanner])
                  else Failing(key, UnknownScanner))
      case (Named(key, _), Spawns(c, ok)) => To(st, c, if ok then Started(key) else Failing(key, CannotStart))
      case (Failing(key, error), Releases(c)) =>
        To(st.(active := Retain(st.active, key.scanner)), c, Refused(error))
      case (Started(key), Records(c)) => To(st.(fetched := st.fetched + [key]), c, Streaming(key))
      case (Streaming(key), DropsStream(c)) => To(st.(active := Retain(st.active, key.scanner)), c, Over)
      case _ => st
  }

  function Run(st: State, events: seq<Event>): State
    decreases |events|
  {
    if events == [] then st else Run(Step(st, events[0]), events[1..])
  }

  const INITIAL := State([], [], map[], map[])

  // ----- What holds in every state -----

  predicate Holding(phase: Phase) { !phase.Refused? && !phase.Over? }

  /** In flight, or a stream that lives. */
  predicate Holds(st: State, call: Call, scanner: Scanner) {
    call in st.calls && Holding(st.calls[call]) && st.calls[call].key.scanner == scanner
  }

  ghost predicate CallOk(st: State, call: Call)
    requires call in st.calls
  {
    Holding(st.calls[call]) ==>
      && st.calls[call].key.scanner in st.active
      && (st.calls[call].Streaming? <==> st.calls[call].key in st.fetched)
  }

  ghost predicate Inv(st: State) {
    && Distinct(st.active) && Distinct(st.fetched)
    && (forall c | c in st.calls :: CallOk(st, c))
    && (forall s | s in st.active :: exists c: Call :: Holds(st, c, s))
    && (forall c: Call, d: Call, s: Scanner | Holds(st, c, s) && Holds(st, d, s) :: c == d)
  }

  lemma {:induction false} SomeoneHolds(st: State, s: Scanner) returns (c: Call)
    requires Inv(st) && s in st.active
    ensures Holds(st, c, s)
  {
    c :| Holds(st, c, s);
  }

  /** A call that holds nothing before or after. */
  lemma {:induction false} RefusalKeepsInv(st: State, call: Call, error: FetchError)
    requires Inv(st) && call !in st.calls
    ensures Inv(To(st, call, Refused(error)))
  {
    var after := To(st, call, Refused(error));
    forall c | c in after.calls
      ensures CallOk(after, c)
    {
      assert c != call ==> CallOk(st, c);
    }
    forall s | s in after.active
      ensures exists c: Call :: Holds(after, c, s)
    {
      var c := SomeoneHolds(st, s);
      assert Holds(after, c, s);
    }
    forall c: Call, d: Call, s: Scanner | Holds(after, c, s) && Holds(after, d, s)
      ensures c == d
    {
      assert Holds(st, c, s) && Holds(st, d, s);
    }
  }

  lemma {:induction false} BeginningKeepsInv(st: State, call: Call, key: Key)
    requires Inv(st) && call !in st.calls && key !in st.fetched && key.scanner !in st.active
    ensures Inv(To(st.(active := st.active + [key.scanner]), call, Begun(key)))
  {
    var after := To(st.(active := st.active + [key.scanner]), call, Begun(key));
    forall c | c in after.calls
      ensures CallOk(after, c)
    {
      assert c != call ==> CallOk(st, c);
    }
    forall s | s in after.active
      ensures exists c: Call :: Holds(after, c, s)
    {
      if s == key.scanner {
        assert Holds(after, call, s);
      } else {
        var c := SomeoneHolds(st, s);
        assert Holds(after, c, s);
      }
    }
    forall c | c in st.calls
      ensures !Holds(st, c, key.scanner)
    {
      assert CallOk(st, c);
    }
    forall c: Call, d: Call, s: Scanner | Holds(after, c, s) && Holds(after, d, s)
      ensures c == d
    {
      assert c != call ==> Holds(st, c, s);
      assert d != call ==> Holds(st, d, s);
    }
  }

  /** A call that goes on holding its scanner, its press recorded when its stream begins. */
  lemma {:induction false} GoingOnKeepsInv(st: State, call: Call, phase: Phase, fetched: seq<Key>)
    requires Inv(st) && call in st.calls && Holding(st.calls[call]) && !st.calls[call].Streaming?
    requires Holding(phase) && phase.key == st.calls[call].key
    requires fetched == if phase.Streaming? then st.fetched + [phase.key] else st.fetched
    ensures Inv(To(st.(fetched := fetched), call, phase))
  {
    var after := To(st.(fetched := fetched), call, phase);
    assert CallOk(st, call);
    forall c | c in after.calls
      ensures CallOk(after, c)
    {
      assert CallOk(st, c);
      OtherScanners(st, call, c);
    }
    forall s | s in after.active
      ensures exists c: Call :: Holds(after, c, s)
    {
      var c := SomeoneHolds(st, s);
      assert Holds(after, c, s);
    }
    forall c: Call, d: Call, s: Scanner | Holds(after, c, s) && Holds(after, d, s)
      ensures c == d
    {
      assert Holds(st, c, s) && Holds(st, d, s);
    }
  }

  lemma {:induction false} LettingGoKeepsInv(st: State, call: Call, phase: Phase)
    requires Inv(st) && call in st.calls && Holding(st.calls[call]) && !Holding(phase)
    ensures Inv(To(st.(active := Retain(st.active, st.calls[call].key.scanner)), call, phase))
  {
    var after := To(st.(active := Retain(st.active, st.calls[call].key.scanner)), call, phase);
    forall c | c in after.calls
      ensures CallOk(after, c)
    {
      assert CallOk(st, c);
      OtherScanners(st, call, c);
    }
    forall s | s in after.active
      ensures exists c: Call :: Holds(after, c, s)
    {
      var c := SomeoneHolds(st, s);
      assert Holds(after, c, s);
    }
    forall c: Call, d: Call, s: Scanner | Holds(after, c, s) && Holds(after, d, s)
      ensures c == d
    {
      assert Holds(st, c, s) && Holds(st, d, s);
    }
  }

  lemma {:induction false} StepKeepsInv(st: State, e: Event)
    requires Inv(st)
    ensures Inv(Step(st, e))
  {
    hide Inv, Retain;
    var after := Step(st, e);
    if e.Remembers? {
      NamesDoNotMatter(st, e.names);
    } else if e.call !in st.calls {
      if e.Begins? && e.key !in st.fetched && e.key.scanner !in st.active {
        BeginningKeepsInv(st, e.call, e.key);
      } else if e.Begins? {
        RefusalKeepsInv(st, e.call, if e.key in st.fetched then UnknownJob else Busy);
      }
    } else if after != st {
      if Holding(after.calls[e.call]) {
        GoingOnKeepsInv(st, e.call, after.calls[e.call], after.fetched);
      } else {
        LettingGoKeepsInv(st, e.call, after.calls[e.call]);
      }
    }
  }

  lemma {:induction false} NamesDoNotMatter(st: State, names: map<Scanner, SaneName>)
    requires Inv(st)
    ensures Inv(st.(saneNames := names))
  {
    var after := st.(saneNames := names);
    forall c | c in after.calls
      ensures CallOk(after, c)
    {
      assert CallOk(st, c);
    }
    forall s | s in after.active
      ensures exists c: Call :: Holds(after, c, s)
    {
      var c := SomeoneHolds(st, s);
      assert Holds(after, c, s);
    }
    forall c: Call, d: Call, s: Scanner | Holds(after, c, s) && Holds(after, d, s)
      ensures c == d
    {
      assert Holds(st, c, s) && Holds(st, d, s);
    }
  }

  lemma {:induction false} OtherScanners(st: State, c: Call, d: Call)
    requires Inv(st)
    ensures c in st.calls && d in st.calls && c != d && Holding(st.calls[c]) && Holding(st.calls[d]) ==>
              st.calls[c].key.scanner != st.calls[d].key.scanner
  {
    if c in st.calls && d in st.calls && Holding(st.calls[c]) && Holding(st.calls[d]) {
      assert Holds(st, c, st.calls[c].key.scanner);
      assert Holds(st, d, st.calls[d].key.scanner);
    }
  }

  lemma {:induction false} EveryRunKeepsInv(st: State, events: seq<Event>)
    requires Inv(st)
    ensures Inv(Run(st, events))
    decreases |events|
  {
    hide Inv, Step;
    if events != [] {
      StepKeepsInv(st, events[0]);
      EveryRunKeepsInv(Step(st, events[0]), events[1..]);
    }
  }

  // ----- Exclusivity -----

  function Times(active: seq<Scanner>, scanner: Scanner): nat {
    multiset(active)[scanner]
  }

  /** The calls in flight for a scanner, and its live streams. */
  function Holders(st: State, scanner: Scanner): set<Call> {
    set c | c in st.calls && Holds(st, c, scanner)
  }

  lemma {:induction false} TailIsDistinct(active: seq<Scanner>)
    requires active != [] && Distinct(active)
    ensures Distinct(active[1..]) && active[0] !in active[1..]
  {
    forall i, j | 0 <= i < j < |active[1..]|
      ensures active[1..][i] != active[1..][j]
    {
      assert active[1..][i] == active[i + 1] && active[1..][j] == active[j + 1];
    }
  }

  lemma {:induction false} DistinctCountsOnce(active: seq<Scanner>, scanner: Scanner)
    requires Distinct(active)
    ensures Times(active, scanner) == if scanner in active then 1 else 0
    decreases |active|
  {
    hide Distinct;
    if active != [] {
      assert active == [active[0]] + active[1..];
      TailIsDistinct(active);
      DistinctCountsOnce(active[1..], scanner);
    }
  }

  lemma {:induction false} OneOrNone(st: State, scanner: Scanner)
    requires Inv(st)
    ensures |Holders(st, scanner)| == if scanner in st.active then 1 else 0
  {
    var holders := Holders(st, scanner);
    if scanner in st.active {
      var c := SomeoneHolds(st, scanner);
      assert c in holders && forall d | d in holders :: Holds(st, d, scanner);
      assert holders == {c};
    } else {
      forall c | c in st.calls
        ensures !Holds(st, c, scanner)
      {
        assert CallOk(st, c);
      }
      assert holders == {};
    }
  }

  /**
   However the steps fall, a scanner has as many calls and streams as it is active times, one at most, and no
   press is fetched twice.
   */
  lemma {:induction false} InEveryRun(events: seq<Event>, scanner: Scanner)
    ensures var st := Run(INITIAL, events);
            && |Holders(st, scanner)| == Times(st.active, scanner) <= 1
            && (forall i, j | 0 <= i < j < |st.fetched| :: st.fetched[i] != st.fetched[j])
  {
    hide Run;
    var st := Run(INITIAL, events);
    assert Inv(INITIAL);
    EveryRunKeepsInv(INITIAL, events);
    DistinctCountsOnce(st.active, scanner);
    OneOrNone(st, scanner);
  }

  /** A new call is let in exactly if its press was not fetched and nothing is under way for its scanner. */
  lemma {:induction false} LetInExactlyWhenFree(st: State, call: Call, key: Key)
    requires Inv(st) && call !in st.calls
    ensures Step(st, Begins(call, key)).calls[call] ==
              if key in st.fetched then Refused(UnknownJob)
              else if Holders(st, key.scanner) != {} then Refused(Busy)
              else Begun(key)
  {
    OneOrNone(st, key.scanner);
    assert Holders(st, key.scanner) == {} <==> |Holders(st, key.scanner)| == 0;
  }

  // ----- One call, among the others -----

  predicate Concerns(e: Event, call: Call) { !e.Remembers? && e.call == call }

  /** Events of other calls, and discoveries, only. */
  predicate OthersOnly(others: seq<seq<Event>>, call: Call) {
    forall k | 0 <= k < |others| :: forall e | e in others[k] :: !Concerns(e, call)
  }

  lemma {:induction false} RunAppend(st: State, a: seq<Event>, b: seq<Event>)
    ensures Run(st, a + b) == Run(Run(st, a), b)
    decreases |a|
  {
    hide Step;
    if a == [] {
      assert a + b == b;
    } else {
      assert (a + b)[1..] == a[1..] + b;
      RunAppend(Step(st, a[0]), a[1..], b);
    }
  }

  lemma {:induction false} RunOne(st: State, e: Event)
    ensures Run(st, [e]) == Step(st, e) && Run(st, []) == st
  {
    hide Step;
    assert [e][1..] == [];
  }

  /** The state in which the call's next event falls, its own so far being `own`. */
  function Before(st: State, own: seq<Event>, others: seq<seq<Event>>): State {
    Run(Run(st, Woven(own, others)), At(others, |own|))
  }

  lemma {:induction false} Onward(st: State, own: seq<Event>, others: seq<seq<Event>>, e: Event)
    ensures Run(st, Woven(own + [e], others)) == Step(Before(st, own, others), e)
  {
    hide Run, Step, Woven;
    WovenSnoc(own, others, e);
    RunAppend(st, Woven(own, others) + At(others, |own|), [e]);
    RunAppend(st, Woven(own, others), At(others, |own|));
    RunOne(Before(st, own, others), e);
  }

  lemma {:induction false} NotBegun(st: State, others: seq<seq<Event>>)
    ensures Run(st, Woven([], others)) == st
  {
  }

  /** The call's own events, in the order of its code. */
  function Script(call: Call, key: Key, r: Result<SaneName, FetchError>): seq<Event> {
    match r
    case Ok(_) => [Begins(call, key), LooksUp(call), Spawns(call, true), Records(call)]
    case Err(UnknownScanner) => [Begins(call, key), LooksUp(call), Releases(call)]
    case Err(CannotStart) => [Begins(call, key), LooksUp(call), Spawns(call, false), Releases(call)]
    case Err(_) => [Begins(call, key)]
  }

  /** What a call answers, told by the states in which its own events fall. */
  predicate Answers(
    st: State, call: Call, key: Key, starts: bool, others: seq<seq<Event>>, r: Result<SaneName, FetchError>)
  {
    var first := Before(st, [], others);
    var names := Before(st, [Begins(call, key)], others).saneNames;
    if key in first.fetched then r == Err(UnknownJob)
    else if Holders(first, key.scanner) != {} then r == Err(Busy)
    else if key.scanner !in names then r == Err(UnknownScanner)
    else if !starts then r == Err(CannotStart)
    else r == Ok(names[key.scanner])
  }

  class Fetches {
    var state: State

    constructor ()
      ensures state == INITIAL
    {
      state := INITIAL;
    }

    /** What other calls and streams do before this call goes on. */
    method Others(call: Call, todo: seq<Event>)
      requires Inv(state) && forall e | e in todo :: !Concerns(e, call)
      modifies this
      ensures Inv(state) && state == Run(old(state), todo)
      ensures call in state.calls <==> call in old(state.calls)
      ensures call in state.calls ==> state.calls[call] == old(state.calls)[call]
    {
      hide Inv, Step, Run, Concerns;
      RunOne(state, Remembers(map[]));
      for i := 0 to |todo|
        invariant Inv(state) && state == Run(old(state), todo[..i])
        invariant call in state.calls <==> call in old(state.calls)
        invariant call in state.calls ==> state.calls[call] == old(state.calls)[call]
      {
        StepKeepsInv(state, todo[i]);
        OthersLeaveItsCall(state, todo[i], call);
        RunAppend(old(state), todo[..i], [todo[i]]);
        RunOne(state, todo[i]);
        assert todo[..i + 1] == todo[..i] + [todo[i]];
        state := Step(state, todo[i]);
      }
      assert todo[..|todo|] == todo;
    }

    /** The others' turn before event `k` of those the call makes from `start` on. */
    method Wait(call: Call, others: seq<seq<Event>>, k: nat, ghost start: State, ghost own: seq<Event>)
      requires Inv(state) && OthersOnly(others, call)
      requires k < |own| && state == Run(start, Woven(own[..k], others))
      modifies this
      ensures Inv(state) && state == Before(start, own[..k], others)
      ensures Run(start, Woven(own[..k + 1], others)) == Step(state, own[k])
      ensures call in state.calls <==> call in old(state.calls)
      ensures call in state.calls ==> state.calls[call] == old(state.calls)[call]
    {
      hide Inv, Step, Run, Woven, Concerns;
      Onward(start, own[..k], others, own[k]);
      assert own[..k] + [own[k]] == own[..k + 1];
      Others(call, At(others, k));
    }

    // The holds of the lock one call goes through.

    method Begin(call: Call, key: Key) returns (error: Option<FetchError>)
      requires Inv(state) && call !in state.calls
      modifies this
      ensures state == Step(old(state), Begins(call, key)) && Inv(state) && call in state.calls
      ensures error == if key in old(state).fetched then Some(UnknownJob)
                       else if Holders(old(state), key.scanner) != {} then Some(Busy) else None
      ensures state.calls[call] == if error.Some? then Refused(error.value) else Begun(key)
    {
      hide Inv, CallOk, Holders;
      LetInExactlyWhenFree(state, call, key);
      StepKeepsInv(state, Begins(call, key));
      if key in state.fetched {
        state := state.(calls := state.calls[call := Refused(UnknownJob)]);
        return Some(UnknownJob);
      }
      if key.scanner in state.active {
        state := state.(calls := state.calls[call := Refused(Busy)]);
        return Some(Busy);
      }
      state := state.(active := state.active + [key.scanner]);
      state := state.(calls := state.calls[call := Begun(key)]);
      return None;
    }

    method LookUp(call: Call, key: Key) returns (name: Option<SaneName>)
      requires Inv(state) && call in state.calls && state.calls[call] == Begun(key)
      modifies this
      ensures state == Step(old(state), LooksUp(call)) && Inv(state) && call in state.calls
      ensures name == if key.scanner in old(state).saneNames then Some(old(state).saneNames[key.scanner]) else None
      ensures state.calls[call] == if name.Some? then Named(key, name.value) else Failing(key, UnknownScanner)
    {
      hide Inv;
      StepKeepsInv(state, LooksUp(call));
      if key.scanner in state.saneNames {
        name := Some(state.saneNames[key.scanner]);
        state := state.(calls := state.calls[call := Named(key, name.value)]);
      } else {
        name := None;
        state := state.(calls := state.calls[call := Failing(key, UnknownScanner)]);
      }
    }

    method Spawn(call: Call, key: Key, starts: bool)
      requires Inv(state) && call in state.calls && state.calls[call].Named? && state.calls[call].key == key
      modifies this
      ensures state == Step(old(state), Spawns(call, starts)) && Inv(state) && call in state.calls
      ensures state.calls[call] == if starts then Started(key) else Failing(key, CannotStart)
    {
      hide Inv;
      StepKeepsInv(state, Spawns(call, starts));
      state := state.(calls := state.calls[call := if starts then Started(key) else Failing(key, CannotStart)]);
    }

    method Record(call: Call, key: Key)
      requires Inv(state) && call in state.calls && state.calls[call] == Started(key)
      modifies this
      ensures state == Step(old(state), Records(call)) && Inv(state) && call in state.calls
      ensures state.calls[call] == Streaming(key) && key in state.fetched
    {
      hide Inv;
      StepKeepsInv(state, Records(call));
      state := state.(fetched := state.fetched + [key]);
      state := state.(calls := state.calls[call := Streaming(key)]);
      assert state.fetched[|state.fetched| - 1] == key;
    }

    method Release(call: Call)
      requires Inv(state) && call in state.calls && state.calls[call].Failing?
      modifies this
      ensures state == Step(old(state), Releases(call)) && Inv(state)
      ensures call in state.calls && state.calls[call] == Refused(old(state).calls[call].error)
    {
      StepKeepsInv(state, Releases(call));
      var phase := state.calls[call];
      state := state.(active := Retain(state.active, phase.key.scanner));
      state := state.(calls := state.calls[call := Refused(phase.error)]);
    }

    method DropStream(call: Call)
      requires Inv(state) && call in state.calls && state.calls[call].Streaming?
      modifies this
      ensures state == Step(old(state), DropsStream(call)) && Inv(state)
      ensures Holders(state, old(state).calls[call].key.scanner) == {}
    {
      var scanner := state.calls[call].key.scanner;
      StepKeepsInv(state, DropsStream(call));
      state := state.(active := Retain(state.active, scanner));
      state := state.(calls := state.calls[call := Over]);
      OneOrNone(state, scanner);
    }

    /**
     Its own events in order, and its answer, as the states they fall in decide; an error leaves it holding
     nothing.
     */
    method FetchPages(call: Call, key: Key, starts: bool, others: seq<seq<Event>>)
      returns (r: Result<SaneName, FetchError>)
      requires Inv(state) && call !in state.calls && OthersOnly(others, call)
      modifies this
      ensures Answers(old(state), call, key, starts, others, r)
      ensures state == Run(old(state), Woven(Script(call, key, r), others))
      ensures Inv(state) && call in state.calls
      ensures r.Ok? ==> state.calls[call] == Streaming(key) && key in state.fetched
      ensures r.Err? ==> state.calls[call] == Refused(r.error)
    {
      hide Inv, Step, Run, Woven, Before, Holders, OthersOnly;
      ghost var start := state;
      ghost var own := [Begins(call, key), LooksUp(call), Spawns(call, starts),
                        if starts then Records(call) else Releases(call)];
      assert own[..0] == [] && own[..1] == [Begins(call, key)] && own[..4] == own;
      NotBegun(start, others);
      Wait(call, others, 0, start, own);
      var error := Begin(call, key);
      if error.Some? {
        return Err(error.value);
      }
      Wait(call, others, 1, start, own);
      var name := LookUp(call, key);
      if name.None? {
        ghost var cut := [Begins(call, key), LooksUp(call), Releases(call)];
        assert cut[..2] == own[..2] && cut[..3] == cut;
        Wait(call, others, 2, start, cut);
        Release(call);
        return Err(UnknownScanner);
      }
      Wait(call, others, 2, start, own);
      Spawn(call, key, starts);
      Wait(call, others, 3, start, own);
      if !starts {
        Release(call);
        return Err(CannotStart);
      }
      Record(call, key);
      return Ok(name.value);
    }
  }

  lemma {:induction false} OthersLeaveItsCall(st: State, e: Event, call: Call)
    requires !Concerns(e, call)
    ensures call in Step(st, e).calls <==> call in st.calls
    ensures call in st.calls ==> Step(st, e).calls[call] == st.calls[call]
  {
  }
}

/**
 The refresh clock. A registration is a lease of `duration`; a round renews every function in turn,
 and the next round starts half a lease later, or sooner when something failed.
 */
module Lease {
  /** Time in nanoseconds, which is what the source's durations are made of. */
  const SECOND: nat := 1_000_000_000
  const DEFAULT_DURATION: nat := 360 * SECOND
  const RESPONSE_TIMEOUT: nat := 2 * SECOND

  function RefreshDelay(duration: nat): nat { duration / 2 }

  function RetryDelay(duration: nat): nat {
    var step := duration / 12;
    if step < 5 * SECOND then 5 * SECOND else if step > 60 * SECOND then 60 * SECOND else step
  }

  /**
   One exchange: how long it took, when in it the device acted, and whether the host was told so.
   A device that was not told to, or whose answer was lost, may or may not have renewed the lease;
   the host only counts on `renewed`.
   */
  datatype Exchange = Exchange(takes: nat, actsAt: nat, renewed: bool)

  /** One round: an exchange per function in their order, or none when no route was found. */
  datatype Round = Round(exchanges: seq<Exchange>)

  predicate Renewed(round: Round, functions: nat) {
    |round.exchanges| == functions && forall i | 0 <= i < functions :: round.exchanges[i].renewed
  }

  ghost predicate Possible(round: Round, functions: nat) {
    && |round.exchanges| in {0, functions}
    && forall i | 0 <= i < |round.exchanges| ::
         round.exchanges[i].actsAt <= round.exchanges[i].takes <= RESPONSE_TIMEOUT
  }

  function Took(exchanges: seq<Exchange>): nat {
    if exchanges == [] then 0 else exchanges[0].takes + Took(exchanges[1..])
  }

  /** When function `i`'s lease was last renewed, given the round began at `start`. */
  function RenewedAt(round: Round, i: nat, start: nat, before: nat): nat {
    if i < |round.exchanges| && round.exchanges[i].renewed
    then start + Took(round.exchanges[..i]) + round.exchanges[i].actsAt
    else before
  }

  /** Between rounds: when the last one ended, how long to wait, and when function `i` was renewed. */
  datatype Clock = Clock(now: nat, delay: nat, renewedAt: nat)

  function AfterRound(clock: Clock, round: Round, functions: nat, i: nat, duration: nat): Clock {
    var start := clock.now + clock.delay;
    Clock(start + Took(round.exchanges),
          if Renewed(round, functions) then RefreshDelay(duration) else RetryDelay(duration),
          RenewedAt(round, i, start, clock.renewedAt))
  }

  /** The first round, at time zero: it is awaited, and nothing runs unless all of it succeeded. */
  function AfterFirstRound(round: Round, i: nat, duration: nat): Clock {
    Clock(Took(round.exchanges), RefreshDelay(duration), RenewedAt(round, i, 0, 0))
  }

  /** The lease is alive up to the end of the run: each renewal, and the end, within `duration` of the last. */
  ghost predicate NeverLapses(clock: Clock, rounds: seq<Round>, functions: nat, i: nat, duration: nat)
    decreases |rounds|
  {
    if rounds == [] then clock.now <= clock.renewedAt + duration
    else
      var next := AfterRound(clock, rounds[0], functions, i, duration);
      && (next.renewedAt == clock.renewedAt || next.renewedAt <= clock.renewedAt + duration)
      && next.now <= next.renewedAt + duration
      && NeverLapses(next, rounds[1..], functions, i, duration)
  }

  /** No more than `k` rounds in a row fail, with `failed` behind already. */
  ghost predicate FailuresBounded(rounds: seq<Round>, functions: nat, k: nat, failed: nat)
    decreases |rounds|
  {
    rounds == [] ||
    if Renewed(rounds[0], functions) then FailuresBounded(rounds[1..], functions, k, 0)
    else failed + 1 <= k && FailuresBounded(rounds[1..], functions, k, failed + 1)
  }

  /** The longest a function can go unrenewed with `k` failed rounds between two good ones. */
  function WorstGap(duration: nat, functions: nat, k: nat): nat {
    (functions + 1) * RESPONSE_TIMEOUT + RefreshDelay(duration)
    + k * (functions * RESPONSE_TIMEOUT + RetryDelay(duration))
  }

  function RunClock(clock: Clock, rounds: seq<Round>, functions: nat, i: nat, duration: nat): Clock
    decreases |rounds|
  {
    if rounds == [] then clock
    else RunClock(AfterRound(clock, rounds[0], functions, i, duration), rounds[1..], functions, i, duration)
  }

  /** One refresh round, best-effort across functions: it reports whether anything failed. */
  method RefreshRound(round: Round, functions: nat) returns (failed: bool, took: nat)
    requires functions > 0 && Possible(round, functions)
    ensures failed <==> !Renewed(round, functions)
    ensures took == Took(round.exchanges)
  {
    if |round.exchanges| != functions {
      return true, 0;
    }
    failed, took := false, 0;
    for j := 0 to functions
      invariant took == Took(round.exchanges[..j])
      invariant failed <==> exists m | 0 <= m < j :: !round.exchanges[m].renewed
    {
      TookSplits(round.exchanges, j);
      if !round.exchanges[j].renewed {
        failed := true;
      }
      took := took + round.exchanges[j].takes;
    }
    assert round.exchanges[..functions] == round.exchanges;
  }

  /** From the end of a round to the next: half the lease when all went well, a twelfth within bounds when not. */
  function Pause(round: Round, functions: nat, duration: nat): nat {
    if |round.exchanges| == functions && forall e | e in round.exchanges :: e.renewed then duration / 2
    else if duration / 12 < 5_000_000_000 then 5_000_000_000
    else if duration / 12 > 60_000_000_000 then 60_000_000_000
    else duration / 12
  }

  lemma {:induction false} PauseIs(round: Round, functions: nat, duration: nat)
    ensures Pause(round, functions, duration)
            == if Renewed(round, functions) then RefreshDelay(duration) else RetryDelay(duration)
  {
  }

  /** When the rounds begin: half a lease after the first one's end, and each after the one before by its pause. */
  ghost predicate AreBegun(begins: seq<nat>, first: Round, rounds: seq<Round>, functions: nat, duration: nat) {
    && |begins| == |rounds|
    && (rounds != [] ==> begins[0] == Took(first.exchanges) + duration / 2)
    && forall j | 0 < j < |rounds| ::
         begins[j] == begins[j - 1] + Took(rounds[j - 1].exchanges) + Pause(rounds[j - 1], functions, duration)
  }

  /** The end of the last round so far, and the pause after it. */
  ghost predicate Stands(
    now: nat, delay: nat, begins: seq<nat>, first: Round, rounds: seq<Round>, functions: nat, duration: nat)
    requires |begins| == |rounds|
  {
    if rounds == [] then now == Took(first.exchanges) && delay == duration / 2
    else
      var last := rounds[|rounds| - 1];
      now == begins[|rounds| - 1] + Took(last.exchanges) && delay == Pause(last, functions, duration)
  }

  predicate Renews(round: Round, i: nat) { i < |round.exchanges| && round.exchanges[i].renewed }

  /** When the device last renewed function `i`: in the last round that renewed it, at its own slot. */
  function LastRenewed(begins: seq<nat>, first: Round, rounds: seq<Round>, i: nat): nat
    requires |begins| == |rounds| && i < |first.exchanges|
    decreases |rounds|
  {
    if rounds == [] then Took(first.exchanges[..i]) + first.exchanges[i].actsAt
    else
      var last := |rounds| - 1;
      if Renews(rounds[last], i) then
        begins[last] + Took(rounds[last].exchanges[..i]) + rounds[last].exchanges[i].actsAt
      else LastRenewed(begins[..last], first, rounds[..last], i)
  }

  /** The refresh task: wait, renew, and choose the next wait by how the round went. */
  method Refresh(first: Round, rounds: seq<Round>, functions: nat, i: nat, duration: nat)
    returns (clock: Clock, begins: seq<nat>)
    requires i < functions && Possible(first, functions) && Renewed(first, functions)
    requires forall r | r in rounds :: Possible(r, functions)
    ensures clock == RunClock(AfterFirstRound(first, i, duration), rounds, functions, i, duration)
    ensures AreBegun(begins, first, rounds, functions, duration)
    ensures clock.renewedAt == LastRenewed(begins, first, rounds, i)
    ensures Stands(clock.now, clock.delay, begins, first, rounds, functions, duration)
  {
    hide RetryDelay, RefreshDelay, Pause, Renewed, RenewedAt, AreBegun, LastRenewed, Stands;
    var now: nat, delay: nat := Took(first.exchanges), RefreshDelay(duration);
    var renewedAt: nat := RenewedAt(first, i, 0, 0);
    FirstRenewal(first, functions, i);
    NothingBegun(first, functions, duration);
    begins := [];
    for j := 0 to |rounds|
      invariant RunClock(AfterFirstRound(first, i, duration), rounds, functions, i, duration)
                == RunClock(Clock(now, delay, renewedAt), rounds[j..], functions, i, duration)
      invariant |begins| == j && AreBegun(begins, first, rounds[..j], functions, duration)
      invariant renewedAt == LastRenewed(begins, first, rounds[..j], i)
      invariant Stands(now, delay, begins, first, rounds[..j], functions, duration)
    {
      OneMoreBegins(begins, now, delay, first, rounds, j, functions, duration);
      now := now + delay;
      OneMoreRenewal(renewedAt, begins, now, first, rounds, j, i);
      begins := begins + [now];
      var failed, took := RefreshRound(rounds[j], functions);
      renewedAt := RenewedAt(rounds[j], i, now, renewedAt);
      now := now + took;
      delay := if failed then RetryDelay(duration) else RefreshDelay(duration);
      PauseIs(rounds[j], functions, duration);
      assert rounds[j..][1..] == rounds[j + 1..];
    }
    assert rounds[..|rounds|] == rounds;
    return Clock(now, delay, renewedAt), begins;
  }

  lemma {:induction false} NothingBegun(first: Round, functions: nat, duration: nat)
    ensures AreBegun([], first, [], functions, duration)
    ensures Stands(Took(first.exchanges), RefreshDelay(duration), [], first, [], functions, duration)
  {
  }

  lemma {:induction false} FirstRenewal(first: Round, functions: nat, i: nat)
    requires i < functions && Renewed(first, functions)
    ensures i < |first.exchanges| && RenewedAt(first, i, 0, 0) == LastRenewed([], first, [], i)
  {
  }

  lemma {:induction false} OneMoreBegins(
    begins: seq<nat>, now: nat, delay: nat, first: Round, rounds: seq<Round>, j: nat, functions: nat, duration: nat)
    requires j < |rounds| && AreBegun(begins, first, rounds[..j], functions, duration)
    requires Stands(now, delay, begins, first, rounds[..j], functions, duration)
    ensures AreBegun(begins + [now + delay], first, rounds[..j + 1], functions, duration)
    ensures Stands(now + delay + Took(rounds[j].exchanges), Pause(rounds[j], functions, duration),
                   begins + [now + delay], first, rounds[..j + 1], functions, duration)
  {
    hide Pause, Took;
    var more := rounds[..j + 1];
    assert forall k | 0 <= k < j :: more[k] == rounds[..j][k];
  }

  lemma {:induction false} OneMoreRenewal(
    at: nat, begins: seq<nat>, now: nat, first: Round, rounds: seq<Round>, j: nat, i: nat)
    requires j < |rounds| && |begins| == j && i < |first.exchanges|
    requires at == LastRenewed(begins, first, rounds[..j], i)
    ensures RenewedAt(rounds[j], i, now, at) == LastRenewed(begins + [now], first, rounds[..j + 1], i)
  {
    hide Took;
    assert rounds[..j + 1][..j] == rounds[..j] && (begins + [now])[..j] == begins;
  }

  lemma {:induction false} TookSplits(exchanges: seq<Exchange>, j: nat)
    requires j < |exchanges|
    ensures Took(exchanges[..j + 1]) == Took(exchanges[..j]) + exchanges[j].takes
    decreases j
  {
    if j == 0 {
      assert exchanges[..1][1..] == [];
      assert Took(exchanges[..1][1..]) == 0;
    } else {
      assert exchanges[..j + 1][1..] == exchanges[1..][..j] && exchanges[..j][1..] == exchanges[1..][..j - 1];
      TookSplits(exchanges[1..], j - 1);
    }
  }

  lemma {:induction false} TookIsBounded(exchanges: seq<Exchange>)
    requires forall j | 0 <= j < |exchanges| :: exchanges[j].takes <= RESPONSE_TIMEOUT
    ensures Took(exchanges) <= |exchanges| * RESPONSE_TIMEOUT
    decreases |exchanges|
  {
    if exchanges != [] {
      TookIsBounded(exchanges[1..]);
    }
  }

  lemma {:induction false} TookAppend(a: seq<Exchange>, b: seq<Exchange>)
    ensures Took(a + b) == Took(a) + Took(b)
    decreases |a|
  {
    if a == [] {
      assert a + b == b;
    } else {
      assert (a + b)[1..] == a[1..] + b;
      TookAppend(a[1..], b);
    }
  }

  /** A renewal of function `i` comes no later than its own slot, and the round ends soon after it. */
  lemma {:induction false} RenewalWithinRound(round: Round, functions: nat, i: nat, start: nat, before: nat)
    requires Possible(round, functions) && i < |round.exchanges| && round.exchanges[i].renewed
    ensures var at := RenewedAt(round, i, start, before);
            start <= at <= start + (i + 1) * RESPONSE_TIMEOUT
            && at <= start + Took(round.exchanges) <= at + (functions - i) * RESPONSE_TIMEOUT
  {
    TookIsBounded(round.exchanges[..i]);
    TookIsBounded(round.exchanges[i + 1..]);
    TookSplits(round.exchanges, i);
    TookAppend(round.exchanges[..i + 1], round.exchanges[i + 1..]);
    assert round.exchanges == round.exchanges[..i + 1] + round.exchanges[i + 1..];
  }

  /** How far behind a function can be when the next round starts, after `failed` bad ones. */
  function StartGap(duration: nat, functions: nat, i: nat, failed: nat): int {
    (functions - i) * RESPONSE_TIMEOUT + RefreshDelay(duration)
    + failed * (functions * RESPONSE_TIMEOUT + RetryDelay(duration))
  }

  lemma {:induction false} StartGapGrows(duration: nat, functions: nat, i: nat, failed: nat, k: nat)
    requires i < functions && failed <= k
    ensures StartGap(duration, functions, i, failed) + (i + 1) * RESPONSE_TIMEOUT <= WorstGap(duration, functions, k)
    ensures failed < k ==> StartGap(duration, functions, i, failed + 1)
                           == StartGap(duration, functions, i, failed)
                              + functions * RESPONSE_TIMEOUT + RetryDelay(duration)
    ensures failed < k ==> StartGap(duration, functions, i, failed) + functions * RESPONSE_TIMEOUT
                           <= WorstGap(duration, functions, k)
  {
    hide RetryDelay, RefreshDelay;
    var step := functions * RESPONSE_TIMEOUT + RetryDelay(duration);
    MulGrows(failed, k, step);
    if failed < k {
      MulGrows(failed + 1, k, step);
      assert (failed + 1) * step == failed * step + step;
    }
  }

  lemma {:induction false} MulGrows(a: nat, b: nat, step: nat)
    requires a <= b
    ensures a * step <= b * step
  {
  }

  /** With at most `k` failed rounds in a row, a lease as long as the worst gap never lapses. */
  lemma {:induction false} LeaseHolds(clock: Clock, rounds: seq<Round>, functions: nat, i: nat, duration: nat,
                                      k: nat, failed: nat)
    requires i < functions && failed <= k && WorstGap(duration, functions, k) <= duration
    requires forall r | r in rounds :: Possible(r, functions)
    requires FailuresBounded(rounds, functions, k, failed)
    requires clock.renewedAt <= clock.now <= clock.renewedAt + duration
    requires clock.now + clock.delay <= clock.renewedAt + StartGap(duration, functions, i, failed)
    ensures NeverLapses(clock, rounds, functions, i, duration)
    decreases |rounds|
  {
    hide WorstGap, StartGap, RetryDelay, RefreshDelay, RenewedAt, Took;
    if rounds != [] {
      var round := rounds[0];
      assert round in rounds;
      var next := AfterRound(clock, round, functions, i, duration);
      var start := clock.now + clock.delay;
      StartGapGrows(duration, functions, i, failed, k);
      if i < |round.exchanges| && round.exchanges[i].renewed {
        RenewalWithinRound(round, functions, i, start, clock.renewedAt);
        AfterRenewal(duration, functions, i, k, if Renewed(round, functions) then 0 else failed + 1);
      } else {
        TookIsBounded(round.exchanges);
        NotRenewed(round, i, start, clock.renewedAt);
      }
      var now := if Renewed(round, functions) then 0 else failed + 1;
      LeaseHolds(next, rounds[1..], functions, i, duration, k, now);
    }
  }

  lemma {:induction false} NotRenewed(round: Round, i: nat, start: nat, before: nat)
    requires !(i < |round.exchanges| && round.exchanges[i].renewed)
    ensures RenewedAt(round, i, start, before) == before
  {
  }

  lemma {:induction false} AfterRenewal(duration: nat, functions: nat, i: nat, k: nat, failed: nat)
    requires i < functions && failed <= k
    ensures (functions - i) * RESPONSE_TIMEOUT + (if failed == 0 then RefreshDelay(duration) else RetryDelay(duration))
            <= StartGap(duration, functions, i, failed)
    ensures (functions - i) * RESPONSE_TIMEOUT <= WorstGap(duration, functions, k)
  {
    hide RetryDelay, RefreshDelay;
    var step := functions * RESPONSE_TIMEOUT + RetryDelay(duration);
    if failed > 0 {
      MulGrows(1, failed, step);
    }
    MulGrows(0, k, step);
  }

  /** Everything a schedule has to be: possible, started, and never failing more than `k` times running. */
  ghost predicate Schedule(first: Round, rounds: seq<Round>, functions: nat, k: nat) {
    && Possible(first, functions) && Renewed(first, functions)
    && (forall r | r in rounds :: Possible(r, functions))
    && FailuresBounded(rounds, functions, k, 0)
  }

  lemma {:induction false} ScheduleHolds(
    first: Round, rounds: seq<Round>, functions: nat, i: nat, duration: nat, k: nat)
    requires i < functions && WorstGap(duration, functions, k) <= duration && Schedule(first, rounds, functions, k)
    ensures NeverLapses(AfterFirstRound(first, i, duration), rounds, functions, i, duration)
  {
    hide WorstGap, StartGap, RetryDelay, RefreshDelay, NeverLapses, RenewedAt, Took;
    RenewalWithinRound(first, functions, i, 0, 0);
    AfterRenewal(duration, functions, i, k, 0);
    LeaseHolds(AfterFirstRound(first, i, duration), rounds, functions, i, duration, k, 0);
  }

  // ----- The schedule that attains the worst gap -----

  /** Every exchange before `i` takes `early`, the others `late`, and the device acts when it answers or at once. */
  function Uniform(functions: nat, i: nat, early: nat, late: nat, acts: bool, renewed: bool): (round: Round)
    ensures |round.exchanges| == functions
  {
    Round(seq(functions, j => var takes := if j < i then early else late;
                              Exchange(takes, if acts then takes else 0, renewed)))
  }

  lemma {:induction false} TookUniform(exchanges: seq<Exchange>, each: nat)
    requires forall j | 0 <= j < |exchanges| :: exchanges[j].takes == each
    ensures Took(exchanges) == |exchanges| * each
    decreases |exchanges|
  {
    if exchanges != [] {
      TookUniform(exchanges[1..], each);
      assert |exchanges| * each == each + |exchanges[1..]| * each;
    }
  }

  function WorstFirst(functions: nat, i: nat): Round { Uniform(functions, i, 0, RESPONSE_TIMEOUT, false, true) }

  function Failed(functions: nat): Round { Uniform(functions, 0, 0, RESPONSE_TIMEOUT, false, false) }

  function WorstLast(functions: nat): Round { Uniform(functions, 0, 0, RESPONSE_TIMEOUT, true, true) }

  function WorstRounds(functions: nat, k: nat): (rounds: seq<Round>)
    ensures |rounds| == k + 1
  {
    if k == 0 then [WorstLast(functions)] else [Failed(functions)] + WorstRounds(functions, k - 1)
  }

  lemma {:induction false} WorstRoundsAreAllowed(functions: nat, j: nat, k: nat, failed: nat)
    requires functions > 0 && failed + j <= k
    ensures forall r | r in WorstRounds(functions, j) :: Possible(r, functions)
    ensures FailuresBounded(WorstRounds(functions, j), functions, k, failed)
    decreases j
  {
    var rounds := WorstRounds(functions, j);
    if j > 0 {
      assert !Failed(functions).exchanges[0].renewed;
      WorstRoundsAreAllowed(functions, j - 1, k, failed + 1);
      assert rounds[1..] == WorstRounds(functions, j - 1);
    } else {
      assert rounds[1..] == [];
      assert Renewed(WorstLast(functions), functions);
    }
  }

  lemma {:induction false} WorstFirstTimes(functions: nat, i: nat, duration: nat)
    requires i < functions
    ensures Possible(WorstFirst(functions, i), functions) && Renewed(WorstFirst(functions, i), functions)
    ensures AfterFirstRound(WorstFirst(functions, i), i, duration)
            == Clock((functions - i) * RESPONSE_TIMEOUT, RefreshDelay(duration), 0)
  {
    var exchanges := WorstFirst(functions, i).exchanges;
    TookUniform(exchanges[..i], 0);
    TookUniform(exchanges[i..], RESPONSE_TIMEOUT);
    TookAppend(exchanges[..i], exchanges[i..]);
    assert exchanges == exchanges[..i] + exchanges[i..];
  }

  lemma {:induction false} FailedTimes(clock: Clock, functions: nat, i: nat, duration: nat)
    requires i < functions
    ensures AfterRound(clock, Failed(functions), functions, i, duration)
            == Clock(clock.now + clock.delay + functions * RESPONSE_TIMEOUT, RetryDelay(duration), clock.renewedAt)
  {
    hide RetryDelay, RefreshDelay;
    var exchanges := Failed(functions).exchanges;
    TookUniform(exchanges, RESPONSE_TIMEOUT);
    assert !exchanges[0].renewed && !exchanges[i].renewed;
  }

  lemma {:induction false} WorstLastTimes(clock: Clock, functions: nat, i: nat, duration: nat)
    requires i < functions
    ensures AfterRound(clock, WorstLast(functions), functions, i, duration).renewedAt
            == clock.now + clock.delay + (i + 1) * RESPONSE_TIMEOUT
  {
    hide RetryDelay, RefreshDelay;
    var exchanges := WorstLast(functions).exchanges;
    TookUniform(exchanges[..i], RESPONSE_TIMEOUT);
  }

  lemma {:induction false} WorstRoundsLapse(clock: Clock, functions: nat, i: nat, duration: nat, j: nat)
    requires i < functions
    requires clock.now + clock.delay + j * (functions * RESPONSE_TIMEOUT + RetryDelay(duration))
             + (i + 1) * RESPONSE_TIMEOUT > clock.renewedAt + duration
    ensures !NeverLapses(clock, WorstRounds(functions, j), functions, i, duration)
    decreases j
  {
    hide RetryDelay, RefreshDelay, AfterRound;
    var rounds := WorstRounds(functions, j);
    var next := AfterRound(clock, rounds[0], functions, i, duration);
    if j == 0 {
      WorstLastTimes(clock, functions, i, duration);
    } else {
      FailedTimes(clock, functions, i, duration);
      var step := functions * RESPONSE_TIMEOUT + RetryDelay(duration);
      assert j * step == step + (j - 1) * step;
      assert rounds[1..] == WorstRounds(functions, j - 1);
      WorstRoundsLapse(next, functions, i, duration, j - 1);
    }
  }

  /** The exact condition, for every duration, number of functions and number of failures. */
  lemma {:induction false} LeaseContinuity(functions: nat, i: nat, duration: nat, k: nat)
    requires i < functions
    ensures (forall first, rounds | Schedule(first, rounds, functions, k) ::
               NeverLapses(AfterFirstRound(first, i, duration), rounds, functions, i, duration))
            <==> WorstGap(duration, functions, k) <= duration
  {
    hide RetryDelay, RefreshDelay, AfterFirstRound, NeverLapses, Possible, Renewed, FailuresBounded;
    if WorstGap(duration, functions, k) <= duration {
      forall first, rounds | Schedule(first, rounds, functions, k)
        ensures NeverLapses(AfterFirstRound(first, i, duration), rounds, functions, i, duration)
      {
        ScheduleHolds(first, rounds, functions, i, duration, k);
      }
    } else {
      var first, rounds := WorstFirst(functions, i), WorstRounds(functions, k);
      WorstFirstTimes(functions, i, duration);
      WorstRoundsAreAllowed(functions, k, k, 0);
      WorstRoundsLapse(AfterFirstRound(first, i, duration), functions, i, duration, k);
      assert Schedule(first, rounds, functions, k);
    }
  }

  /** How many failed rounds in a row the vendor's lease survives, by the number of functions on the panel. */
  function Survived(functions: nat): nat { if functions <= 2 then 5 else 4 }

  lemma {:induction false} DefaultGap(functions: nat, k: nat)
    requires 1 <= functions <= 4
    ensures WorstGap(DEFAULT_DURATION, functions, k) <= DEFAULT_DURATION <==> k <= Survived(functions)
  {
    assert RetryDelay(DEFAULT_DURATION) == 30 * SECOND && RefreshDelay(DEFAULT_DURATION) == 180 * SECOND;
    assert WorstGap(DEFAULT_DURATION, functions, k) ==
           (if functions == 1 then (184 + k * 32) * SECOND else if functions == 2 then (186 + k * 34) * SECOND
            else if functions == 3 then (188 + k * 36) * SECOND else (190 + k * 38) * SECOND);
  }

  /**
   The vendor's lease outlives five failed rounds in a row with one or two functions, four with three or four,
   and no more.
   */
  lemma {:induction false} WhatTheDefaultLeaseSurvives(functions: nat, i: nat, k: nat)
    requires i < functions <= 4
    ensures (forall first, rounds | Schedule(first, rounds, functions, k) ::
               NeverLapses(AfterFirstRound(first, i, DEFAULT_DURATION), rounds, functions, i, DEFAULT_DURATION))
            <==> k <= Survived(functions)
  {
    hide Schedule, NeverLapses, AfterFirstRound, WorstGap;
    LeaseContinuity(functions, i, DEFAULT_DURATION, k);
    DefaultGap(functions, k);
  }
}

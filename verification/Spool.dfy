/**
 The page spool between `scanimage` and the reader that follows it: one file a page, written and grown by
 one process while another polls it, takes whole pages away and passes them on.
 */
module Spool {
  import opened Wrappers
  import opened Bytes
  import opened Pnm

  type Files = map<nat, bytes>

  function Content(files: Files, page: nat): bytes { if page in files then files[page] else [] }

  // ----- The writer, and the receiver's end of the channel -----

  /** What happens outside the reader, in the order it happens. */
  datatype Move =
    | Writes(page: nat, data: bytes)
    | Exits(code: Option<int>)
    | ReceiverLeaves
    | Idle

  /** Everything `scanimage` has written to a page, once these moves are made; nothing after it exits. */
  function Written(files: Files, running: bool, moves: seq<Move>): Files
    decreases |moves|
  {
    if !running || moves == [] then files
    else
      match moves[0]
      case Writes(page, data) => Written(files[page := Content(files, page) + data], true, moves[1..])
      case Exits(_) => files
      case _ => Written(files, true, moves[1..])
  }

  ghost predicate Grows(before: Files, after: Files) {
    forall page: nat :: Content(before, page) <= Content(after, page)
  }

  lemma {:induction false} GrowsAt(before: Files, after: Files, page: nat)
    requires Grows(before, after)
    ensures Content(before, page) <= Content(after, page)
  {
  }

  lemma {:induction false} NothingThere(files: Files, page: nat)
    ensures page !in files ==> Content(files, page) == []
  {
  }

  lemma {:induction false} GrowsTwice(a: Files, b: Files, c: Files)
    requires Grows(a, b) && Grows(b, c)
    ensures Grows(a, c)
  {
    forall page: nat
      ensures Content(a, page) <= Content(c, page)
    {
      assert Content(a, page) <= Content(b, page) <= Content(c, page);
    }
  }

  lemma {:induction false} WritingGrows(files: Files, running: bool, moves: seq<Move>)
    ensures Grows(files, Written(files, running, moves))
    decreases |moves|
  {
    if running && moves != [] {
      match moves[0]
      case Writes(page, data) => {
        var next := files[page := Content(files, page) + data];
        assert Grows(files, next);
        WritingGrows(next, true, moves[1..]);
        forall p: nat
          ensures Content(files, p) <= Content(Written(files, running, moves), p)
        {
          assert Content(files, p) <= Content(next, p) <= Content(Written(next, true, moves[1..]), p);
        }
      }
      case Exits(_) => {}
      case _ => WritingGrows(files, true, moves[1..]);
    }
  }

  function Status(code: Option<int>, running: bool, moves: seq<Move>): Option<int>
    decreases |moves|
  {
    if !running || moves == [] then code
    else if moves[0].Exits? then moves[0].code
    else Status(code, true, moves[1..])
  }

  lemma {:induction false} NothingFollowsTheExit(files: Files, code: Option<int>, moves: seq<Move>)
    ensures Written(files, false, moves) == files && Status(code, false, moves) == code
  {
  }

  datatype RawPage = RawPage(index: nat, dpi: nat, data: bytes)

  /** The writer's process, its directory, and the channel the reader fills. */
  class Scan {
    ghost var written: Files
    var files: Files
    var taken: set<nat>
    var running: bool
    var code: Option<int>
    var receiving: bool
    var sent: seq<RawPage>
    var future: seq<Move>

    constructor (future: seq<Move>)
      requires exists i :: 0 <= i < |future| && future[i].Exits?
      ensures written == map[] && taken == {} && running && receiving && sent == []
      ensures this.future == future && Valid()
    {
      written, files, taken, running, code, receiving, sent := map[], map[], {}, true, None, true, [];
      this.future := future;
    }

    /** The directory holds what was written, less the pages the reader took. */
    ghost predicate Valid()
      reads this
    {
      && (running ==> exists i :: 0 <= i < |future| && future[i].Exits?)
      && (forall page | page !in taken :: Content(files, page) == Content(written, page))
    }

    /** The pages as the writer will leave them. */
    ghost function Final(): Files
      reads this`written, this`running, this`future
    {
      Written(written, running, future)
    }

    /** The status the writer ends with, `None` for a signal. */
    ghost function FinalCode(): Option<int>
      reads this`code, this`running, this`future
    {
      Status(code, running, future)
    }

    ghost predicate ReceiverStays()
      reads this`receiving, this`future
    {
      receiving && ReceiverLeaves !in future
    }

    /** A page is gone from the directory exactly if it was passed on. */
    ghost predicate TookWhatItSent()
      reads this
    {
      forall page: nat :: page in taken <==> 1 <= page <= |sent|
    }

    /** Time passes for the reader: any number of moves, and while there are any, `least` of them. */
    method Elapse(least: nat)
      requires Valid()
      modifies this`written, this`files, this`running, this`code, this`receiving, this`future
      ensures Valid() && Final() == old(Final()) && FinalCode() == old(FinalCode())
      ensures Grows(old(written), written) && Grows(written, Final())
      ensures !old(running) ==> !running && written == old(written)
      ensures old(ReceiverStays()) ==> ReceiverStays()
      ensures !old(receiving) ==> !receiving
      ensures |future| <= |old(future)|
      ensures least > 0 && old(future) != [] ==> |future| < |old(future)|
    {
      var pace: nat :| pace <= |future| && (future == [] || least <= pace || pace == |future|);
      for i := 0 to pace
        invariant |future| == |old(future)| - i
        invariant Valid() && Final() == old(Final()) && FinalCode() == old(FinalCode()) && Grows(old(written), written)
        invariant !old(running) ==> !running && written == old(written)
        invariant old(ReceiverStays()) ==> ReceiverStays()
        invariant !old(receiving) ==> !receiving
      {
        OneMove();
      }
      WritingGrows(written, running, future);
    }

    method OneMove()
      requires Valid() && future != []
      modifies this`written, this`files, this`running, this`code, this`receiving, this`future
      ensures Valid() && Final() == old(Final()) && FinalCode() == old(FinalCode()) && Grows(old(written), written)
      ensures !old(running) ==> !running && written == old(written)
      ensures old(ReceiverStays()) ==> ReceiverStays()
      ensures !old(receiving) ==> !receiving
      ensures future == old(future)[1..]
    {
      var move := future[0];
      ghost var was := future;
      future := future[1..];
      match move {
        case Writes(page, data) =>
          if running {
            written := written[page := Content(written, page) + data];
            // A file unlinked while open takes what is still written to it out of sight.
            if page !in taken {
              files := files[page := Content(files, page) + data];
            }
          }
        case Exits(status) =>
          if running {
            running, code := false, status;
          }
        case ReceiverLeaves => receiving := false;
        case Idle =>
      }
      if running {
        ghost var i :| 0 <= i < |was| && was[i].Exits?;
        assert future[i - 1].Exits?;
      }
    }

    method RemoveFile(page: nat)
      requires Valid()
      modifies this`files, this`taken
      ensures Valid() && taken == old(taken) + {page}
    {
      taken := taken + {page};
      files := files - {page};
    }

    /** One look at a page's file; a whole page is taken out of the directory. */
    method ReadCompletePage(page: nat) returns (r: Result<Option<bytes>, PnmError>, ghost seen: bytes)
      requires Valid() && page !in taken
      modifies this`written, this`files, this`taken, this`running, this`code, this`receiving, this`future
      ensures Valid() && Final() == old(Final()) && FinalCode() == old(FinalCode())
      ensures Grows(old(written), written) && Grows(written, Final())
      ensures !old(running) ==> !running && written == old(written)
      ensures old(ReceiverStays()) ==> ReceiverStays()
      ensures !old(receiving) ==> !receiving
      ensures |future| <= |old(future)|
      ensures Content(old(written), page) <= seen
      ensures seen <= Content(written, page) && (!old(running) ==> seen == Content(written, page))
      ensures match r
              case Ok(Some(data)) => CompletePnmLen(seen).Ok? && CompletePnmLen(seen).value.Some? && data == seen
              case Ok(None) => CompletePnmLen(seen) == Ok(None)
              case Err(e) => CompletePnmLen(seen) == Err(e)
      ensures taken == old(taken) + if r.Ok? && r.value.Some? then {page} else {}
    {
      hide CompletePnmLen, Written, Status, Grows, Content;
      Elapse(0);
      GrowsAt(old(written), written, page);
      var data := Content(files, page);
      assert data == Content(written, page);
      seen := data;
      ghost var looked := written;
      if page !in files {
        EmptyIsIncomplete();
        NothingThere(files, page);
        return Ok(None), seen;
      }
      var length := CompletePnmLenLoop(data);
      match length {
        case Err(e) => return Err(e), seen;
        case Ok(None) => return Ok(None), seen;
        case Ok(Some(_)) =>
          Elapse(0);
          GrowsAt(looked, written, page);
          GrowsTwice(old(written), looked, written);
          RemoveFile(page);
          return Ok(Some(data)), seen;
      }
    }

    /** `false` once nobody receives. */
    method Send(item: RawPage) returns (ok: bool)
      requires Valid()
      modifies this`written, this`files, this`running, this`code, this`receiving, this`future, this`sent
      ensures Valid() && Final() == old(Final()) && FinalCode() == old(FinalCode())
      ensures Grows(old(written), written) && Grows(written, Final())
      ensures !old(running) ==> !running && written == old(written)
      ensures old(ReceiverStays()) ==> ReceiverStays() && ok
      ensures !ok ==> !receiving
      ensures |future| <= |old(future)|
      ensures sent == if ok then old(sent) + [item] else old(sent)
    {
      Elapse(0);
      ok := receiving;
      if ok {
        sent := sent + [item];
      }
    }
  }

  lemma {:induction false} EmptyIsIncomplete()
    ensures CompletePnmLen([]) == Ok(None)
  {
  }

  // ----- The reader -----

  datatype StreamError = InvalidPage(page: nat, why: PnmError) | ReceiverDropped

  ghost predicate Complete(b: bytes) { CompletePnmLen(b).Ok? && CompletePnmLen(b).value.Some? }

  /** Pages passed on in order and whole, each as the writer had it then. */
  ghost predicate Faithful(sent: seq<RawPage>, dpi: nat, files: Files) {
    forall i | 0 <= i < |sent| ::
      && sent[i].index == i && sent[i].dpi == dpi
      && Complete(sent[i].data) && sent[i].data <= Content(files, i + 1)
  }

  lemma {:induction false} FaithfulLater(sent: seq<RawPage>, dpi: nat, files: Files, later: Files)
    requires Faithful(sent, dpi, files) && Grows(files, later)
    ensures Faithful(sent, dpi, later)
  {
    hide CompletePnmLen;
    forall i | 0 <= i < |sent|
      ensures sent[i].data <= Content(later, i + 1)
    {
      assert Content(files, i + 1) <= Content(later, i + 1);
    }
  }

  /** Pages 1 to `n` are complete, and the one after them is not. */
  ghost predicate MaximalRun(files: Files, n: nat) {
    && (forall page | 1 <= page <= n :: Complete(Content(files, page)))
    && CompletePnmLen(Content(files, n + 1)) == Ok(None)
  }

  lemma {:induction false} AtLeastThatMany(pages: set<nat>, n: nat)
    requires forall page | 1 <= page <= n :: page in pages
    ensures n <= |pages|
  {
    if n > 0 {
      AtLeastThatMany(pages - {n}, n - 1);
    }
  }

  lemma {:induction false} FaithfulPagesExist(sent: seq<RawPage>, dpi: nat, files: Files)
    requires Faithful(sent, dpi, files)
    ensures forall page | 1 <= page <= |sent| :: page in files
    ensures |sent| <= |files|
  {
    hide CompletePnmLen;
    EmptyIsIncomplete();
    forall page | 1 <= page <= |sent|
      ensures page in files
    {
      assert Complete(sent[page - 1].data);
    }
    AtLeastThatMany(files.Keys, |sent|);
  }

  lemma {:induction false} NothingSentYet(dpi: nat, files: Files)
    ensures Faithful([], dpi, files)
  {
  }

  lemma {:induction false} OneMorePage(sent: seq<RawPage>, dpi: nat, data: bytes, files: Files, later: Files)
    requires Faithful(sent, dpi, later) && Grows(files, later)
    requires Complete(data) && data <= Content(files, |sent| + 1)
    ensures Faithful(sent + [RawPage(|sent|, dpi, data)], dpi, later)
  {
    hide CompletePnmLen;
    assert Content(files, |sent| + 1) <= Content(later, |sent| + 1);
  }

  /** What the reader answers, against the pages as the writer leaves them. */
  ghost predicate Answers(final: Files, sent: seq<RawPage>, dpi: nat, r: Result<nat, StreamError>) {
    && Faithful(sent, dpi, final)
    && match r
       case Ok(n) => n == |sent| && MaximalRun(final, n)
       case Err(InvalidPage(page, why)) =>
         page == |sent| + 1
         && exists seen :: seen <= Content(final, page) && CompletePnmLen(seen) == Err(why)
       case Err(ReceiverDropped) => false
  }

  /** Takes whole pages in order and passes them on, until the first that is not there. */
  method Drain(scan: Scan, dpi: nat) returns (r: Result<(), StreamError>, ghost seen: bytes)
    requires scan.Valid() && Faithful(scan.sent, dpi, scan.written)
    requires scan.TookWhatItSent()
    modifies scan
    ensures scan.Valid() && scan.Final() == old(scan.Final()) && scan.FinalCode() == old(scan.FinalCode())
    ensures Grows(scan.written, scan.Final())
    ensures Faithful(scan.sent, dpi, scan.written) && old(scan.sent) <= scan.sent
    ensures !old(scan.running) ==> !scan.running && scan.written == old(scan.written)
    ensures old(scan.ReceiverStays()) ==> scan.ReceiverStays()
    ensures |scan.future| <= |old(scan.future)|
    ensures r != Err(ReceiverDropped) ==>
      && scan.TookWhatItSent()
      && seen <= Content(scan.written, |scan.sent| + 1)
      && (!old(scan.running) ==> seen == Content(scan.written, |scan.sent| + 1))
    ensures match r
            case Ok(_) => CompletePnmLen(seen) == Ok(None)
            case Err(InvalidPage(page, why)) => page == |scan.sent| + 1 && CompletePnmLen(seen) == Err(why)
            case Err(ReceiverDropped) => !scan.receiving && !old(scan.ReceiverStays())
  {
    hide CompletePnmLen, Faithful, Grows, Written, Status;
    var next := |scan.sent| + 1;
    WritingGrows(scan.written, scan.running, scan.future);
    while true
      invariant scan.Valid() && scan.Final() == old(scan.Final()) && scan.FinalCode() == old(scan.FinalCode())
      invariant Grows(scan.written, scan.Final())
      invariant next == |scan.sent| + 1 && old(scan.sent) <= scan.sent
      invariant Faithful(scan.sent, dpi, scan.written)
      invariant scan.TookWhatItSent()
      invariant !old(scan.running) ==> !scan.running && scan.written == old(scan.written)
      invariant old(scan.ReceiverStays()) ==> scan.ReceiverStays()
      invariant |scan.future| <= |old(scan.future)|
      decreases |scan.Final()| - |scan.sent|
    {
      ghost var before, final := scan.written, scan.Final();
      FaithfulLater(scan.sent, dpi, before, final);
      FaithfulPagesExist(scan.sent, dpi, final);
      var page;
      page, seen := scan.ReadCompletePage(next);
      FaithfulLater(scan.sent, dpi, before, scan.written);
      match page {
        case Err(why) => return Err(InvalidPage(next, why)), seen;
        case Ok(None) => return Ok(()), seen;
        case Ok(Some(data)) =>
          ghost var taken, had := scan.written, scan.sent;
          var ok := scan.Send(RawPage(next - 1, dpi, data));
          FaithfulLater(had, dpi, taken, scan.written);
          if !ok {
            return Err(ReceiverDropped), seen;
          }
          OneMorePage(had, dpi, data, taken, scan.written);
          FaithfulLater(scan.sent, dpi, scan.written, final);
          FaithfulPagesExist(scan.sent, dpi, final);
          next := next + 1;
      }
    }
  }

  /** Whatever was written between the last look and the exit. */
  method LastDrain(scan: Scan, dpi: nat) returns (r: Result<nat, StreamError>)
    requires scan.Valid() && !scan.running && Faithful(scan.sent, dpi, scan.written) && scan.TookWhatItSent()
    modifies scan
    ensures scan.Valid() && !scan.running
    ensures Faithful(scan.sent, dpi, scan.written)
    ensures r.Ok? ==> r.value == |scan.sent|
    ensures r == Err(ReceiverDropped) ==> !scan.receiving
    ensures r != Err(ReceiverDropped) ==> scan.TookWhatItSent()
    ensures old(scan.ReceiverStays()) ==> Answers(old(scan.Final()), scan.sent, dpi, r)
    ensures scan.code == old(scan.FinalCode())
  {
    hide CompletePnmLen, Faithful, Grows, Written, Status, Answers, MaximalRun;
    ghost var final := scan.Final();
    var drained, seen := Drain(scan, dpi);
    NothingFollowsTheExit(scan.written, scan.code, scan.future);
    if drained.Err? {
      GivesUp(final, scan.written, scan.sent, dpi, drained.error, seen);
      return Err(drained.error);
    }
    RunIsMaximal(scan.written, scan.sent, dpi);
    return Ok(|scan.sent|);
  }

  method StreamPages(scan: Scan, dpi: nat) returns (r: Result<nat, StreamError>)
    requires scan.Valid() && scan.sent == [] && scan.taken == {}
    modifies scan
    ensures scan.Valid() && (r.Ok? ==> !scan.running)
    ensures Faithful(scan.sent, dpi, scan.written)
    ensures r.Ok? ==> r.value == |scan.sent|
    ensures r == Err(ReceiverDropped) ==> !scan.receiving
    ensures r != Err(ReceiverDropped) ==> scan.TookWhatItSent()
    ensures old(scan.ReceiverStays()) ==> Answers(old(scan.Final()), scan.sent, dpi, r)
    ensures old(scan.ReceiverStays()) && r.Ok? ==> scan.code == old(scan.FinalCode())
  {
    hide CompletePnmLen, Faithful, Grows, Written, Status, Answers, MaximalRun;
    ghost var final := scan.Final();
    NothingSentYet(dpi, scan.written);
    while true
      invariant scan.Valid() && scan.Final() == final && scan.FinalCode() == old(scan.FinalCode())
      invariant Faithful(scan.sent, dpi, scan.written)
      invariant scan.TookWhatItSent()
      invariant old(scan.ReceiverStays()) ==> scan.ReceiverStays()
      decreases |scan.future|
    {
      if !scan.receiving {
        scan.running, scan.code := false, None;
        return Ok(|scan.sent|);
      }
      ghost var seen;
      var drained;
      drained, seen := Drain(scan, dpi);
      if drained.Err? {
        GivesUp(final, scan.written, scan.sent, dpi, drained.error, seen);
        return Err(drained.error);
      }
      ghost var before := scan.written;
      scan.Elapse(0);
      FaithfulLater(scan.sent, dpi, before, scan.written);
      if !scan.running {
        r := LastDrain(scan, dpi);
        return;
      }
      before := scan.written;
      scan.Elapse(1);
      FaithfulLater(scan.sent, dpi, before, scan.written);
    }
  }

  lemma {:induction false} GivesUp(
    final: Files, written: Files, sent: seq<RawPage>, dpi: nat, error: StreamError, seen: bytes)
    requires Grows(written, final) && Faithful(sent, dpi, written)
    ensures error.InvalidPage? && error.page == |sent| + 1 && seen <= Content(written, error.page)
            && CompletePnmLen(seen) == Err(error.why)
            ==> Answers(final, sent, dpi, Err(error))
  {
    hide CompletePnmLen;
    FaithfulLater(sent, dpi, written, final);
    if error.InvalidPage? {
      assert Content(written, error.page) <= Content(final, error.page);
    }
  }

  lemma {:induction false} RunIsMaximal(files: Files, sent: seq<RawPage>, dpi: nat)
    requires Faithful(sent, dpi, files) && CompletePnmLen(Content(files, |sent| + 1)) == Ok(None)
    ensures Answers(files, sent, dpi, Ok(|sent|))
  {
    hide CompletePnmLen;
    forall page | 1 <= page <= |sent|
      ensures Complete(Content(files, page))
    {
      CompleteStays(sent[page - 1].data, Content(files, page));
    }
  }

  lemma {:induction false} CompleteStays(b: bytes, longer: bytes)
    requires Complete(b) && b <= longer
    ensures Complete(longer)
  {
    hide CompletePnmLen;
    var ext := longer[|b|..];
    assert longer == b + ext;
    LengthIsStable(b, ext);
  }

  // ----- How the stream ends -----

  const SANE_STATUS_EOF := 5
  const SANE_STATUS_NO_DOCS := 7

  /** A status that ends a feed, once there was a page. */
  predicate EndedAtEndOfFeed(code: Option<int>, delivered: nat) {
    delivered > 0 && code in {Some(SANE_STATUS_EOF), Some(SANE_STATUS_NO_DOCS)}
  }

  datatype FeedError = Stream(error: StreamError) | ExitedWith(code: Option<int>)

  /** The pages, and the error that follows them, if one does. */
  method FetchPages(scan: Scan, dpi: nat) returns (last: Option<FeedError>)
    requires scan.Valid() && scan.sent == [] && scan.taken == {}
    modifies scan
    ensures Faithful(scan.sent, dpi, scan.written)
    ensures old(scan.ReceiverStays()) ==>
              FeedEnds(old(scan.Final()), old(scan.FinalCode()), scan.sent, dpi, last)
    ensures old(scan.ReceiverStays()) ==>
              forall n: nat | LeavesWholePages(old(scan.Final()), n) ::
                PassedOn(old(scan.Final()), old(scan.FinalCode()), scan.sent, dpi, last, n)
  {
    hide Answers, Faithful, LeavesWholePages, PassedOn, Written, Status;
    ghost var final, code := scan.Final(), scan.FinalCode();
    ghost var stays := scan.ReceiverStays();
    var outcome := StreamPages(scan, dpi);
    if outcome.Err? {
      last := Some(Stream(outcome.error));
    } else if scan.code != Some(0) && !EndedAtEndOfFeed(scan.code, outcome.value) {
      last := Some(ExitedWith(scan.code));
    } else {
      last := None;
    }
    forall n: nat | stays && LeavesWholePages(final, n)
      ensures PassedOn(final, code, scan.sent, dpi, last, n)
    {
      EveryWholePageIsPassedOn(final, code, scan.sent, dpi, last, n);
    }
  }

  ghost predicate FeedEnds(final: Files, code: Option<int>, sent: seq<RawPage>, dpi: nat, last: Option<FeedError>) {
    match last
    case None => Answers(final, sent, dpi, Ok(|sent|)) && (code == Some(0) || EndedAtEndOfFeed(code, |sent|))
    case Some(ExitedWith(status)) =>
      && Answers(final, sent, dpi, Ok(|sent|))
      && status == code && code != Some(0) && !EndedAtEndOfFeed(code, |sent|)
    case Some(Stream(error)) => Answers(final, sent, dpi, Err(error))
  }

  /** Files `scanimage` finished, no sign in their headers, and one it was still at work on when it ended. */
  ghost predicate WholeFile(b: bytes) {
    exists p, width, height, maxval :: WholePage(p, width, height, maxval) && Unsigned(p) && b == PageBytes(p)
  }

  ghost predicate CutFile(b: bytes) {
    exists p, width, height, maxval :: WholePage(p, width, height, maxval) && Unsigned(p) && b < PageBytes(p)
  }

  lemma {:induction false} WholeFileWhenAllThere(b: bytes, seen: bytes)
    requires WholeFile(b) && seen <= b
    ensures CompletePnmLen(seen) == Ok(if seen == b then Some(|b|) else None)
  {
    hide CompletePnmLen, WholePage, PageBytes, Unsigned;
    var p, width, height, maxval :| WholePage(p, width, height, maxval) && Unsigned(p) && b == PageBytes(p);
    assert seen == b[..|seen|];
    ExactlyASignIsReadTooSoon(p, width, height, maxval);
    assert PageBytes(p)[..|seen|] == seen;
  }

  lemma {:induction false} CutFileNeverThere(b: bytes, seen: bytes)
    requires CutFile(b) && seen <= b
    ensures CompletePnmLen(seen) == Ok(None)
  {
    hide CompletePnmLen, WholePage, PageBytes, Unsigned;
    var p, width, height, maxval :| WholePage(p, width, height, maxval) && Unsigned(p) && b < PageBytes(p);
    assert seen == PageBytes(p)[..|seen|];
    ExactlyASignIsReadTooSoon(p, width, height, maxval);
    assert PageBytes(p)[..|seen|] == seen;
  }

  lemma {:induction false} SentIsComplete(final: Files, sent: seq<RawPage>, dpi: nat, i: nat)
    requires Faithful(sent, dpi, final)
    ensures i < |sent| ==> exists seen :: seen <= Content(final, i + 1) && Complete(seen)
  {
    hide CompletePnmLen;
    if i < |sent| {
      assert Complete(sent[i].data);
    }
  }

  /** Pages 1 to `n` whole, and of the next at most a part. */
  ghost predicate LeavesWholePages(final: Files, n: nat) {
    && (forall page | 1 <= page <= n :: WholeFile(Content(final, page)))
    && (Content(final, n + 1) == [] || CutFile(Content(final, n + 1)))
  }

  ghost predicate PassedOn(
    final: Files, code: Option<int>, sent: seq<RawPage>, dpi: nat, last: Option<FeedError>, n: nat)
  {
    && last == (if code == Some(0) || (n > 0 && code in {Some(5), Some(7)}) then None else Some(ExitedWith(code)))
    && |sent| == n && forall i | 0 <= i < n :: sent[i] == RawPage(i, dpi, Content(final, i + 1))
  }

  lemma {:induction false} EveryWholePageIsSent(
    final: Files, sent: seq<RawPage>, dpi: nat, r: Result<nat, StreamError>, n: nat)
    requires Answers(final, sent, dpi, r) && LeavesWholePages(final, n)
    ensures r == Ok(n)
    ensures |sent| == n && forall i | 0 <= i < n :: sent[i] == RawPage(i, dpi, Content(final, i + 1))
  {
    hide CompletePnmLen, WholeFile, CutFile;
    EmptyIsIncomplete();
    forall seen | seen <= Content(final, n + 1)
      ensures CompletePnmLen(seen) == Ok(None)
    {
      if CutFile(Content(final, n + 1)) {
        CutFileNeverThere(Content(final, n + 1), seen);
      }
    }
    forall page, seen | 1 <= page <= n && seen <= Content(final, page)
      ensures CompletePnmLen(seen) == Ok(if seen == Content(final, page) then Some(|seen|) else None)
    {
      WholeFileWhenAllThere(Content(final, page), seen);
    }
    SentIsComplete(final, sent, dpi, n);
    forall i | 0 <= i < |sent| && i < n
      ensures sent[i] == RawPage(i, dpi, Content(final, i + 1))
    {
      assert sent[i].data <= Content(final, i + 1);
    }
  }

  /**
   A writer that leaves whole pages, and perhaps one cut short, has exactly the whole ones passed on, byte
   for byte, however its writes fell between the reader's looks; an error follows them unless the writer
   ended well or, after a page at least, for want of paper.
   */
  lemma {:induction false} EveryWholePageIsPassedOn(
    final: Files, code: Option<int>, sent: seq<RawPage>, dpi: nat, last: Option<FeedError>, n: nat)
    requires FeedEnds(final, code, sent, dpi, last) && LeavesWholePages(final, n)
    ensures PassedOn(final, code, sent, dpi, last, n)
  {
    hide Answers, WholeFile, CutFile, Content;
    var r := if last.Some? && last.value.Stream? then Err(last.value.error) else Ok(|sent|);
    EveryWholePageIsSent(final, sent, dpi, r, n);
  }
}

/** Filling the ring buffer from the open handle, and the escalation chain
    fill -> reopen -> error channel that the fill loops run every interval. */
module Followers {
  import opened Tailer

  /** The end conditions of io.Copy that mean "nothing more to read right
      now": no error, a short write into a full ring buffer, end of file. */
  predicate Benign(copyErr: Option<Error>)
  {
    copyErr == None || copyErr == Some(ErrShortWrite) || copyErr == Some(EOF)
  }

  /** What `fill` returns for the error io.Copy ended with. */
  function FillResult(copyErr: Option<Error>): (r: Option<Error>)
    ensures r.None? <==> Benign(copyErr)
    ensures r.Some? ==> r == copyErr
  {
    match copyErr
    case None => None
    case Some(ErrShortWrite) => None
    case Some(EOF) => None
    case Some(IOError(_)) => copyErr
  }

  /** The actions of one `fill`: the copy runs with the handle mutex held. */
  const FillActions: seq<Action> := [Lock, Copy, Unlock]

  /** `t.fill()`. The bytes copied into the ring buffer are not modelled;
      `copyErr` is the error io.Copy ended with. The mutex is released
      before the error is classified, on every path, and fill never sends
      on the error channel (its frame leaves `errc` alone). */
  method Fill(t: File, copyErr: Option<Error>) returns (err: Option<Error>)
    modifies t`log
    ensures t.log == old(t.log) + FillActions
    ensures err == FillResult(copyErr)
  {
    t.log := t.log + [Lock];
    t.log := t.log + [Copy];
    t.log := t.log + [Unlock];
    match copyErr
    case None => err := None;
    case Some(ErrShortWrite) => err := None;
    case Some(EOF) => err := None;
    case Some(IOError(_)) => err := copyErr;
  }

  /** One iteration of the fill loop (`pollForUpdates`, `pollForChanges`):
      fill; on a real error reopen; if the reopen fails too, send its error. */
  function RefillStep(copyErr: Option<Error>, reopenErr: Option<Error>): (e: Effect)
    ensures e.actions == FillActions + (if Benign(copyErr) then [] else [Reopen])
    ensures Reopen in e.actions <==> !Benign(copyErr)
    ensures |e.sent| <= 1
    ensures e.sent != [] <==> !Benign(copyErr) && reopenErr.Some?
    ensures e.sent != [] ==> e.sent == [reopenErr.value]
  {
    if FillResult(copyErr).None? then Effect(FillActions, [])
    else Effect(FillActions + [Reopen], Sends(reopenErr))
  }

  /** The body of the fill loops: fill; on a real error reopen; if the
      reopen fails too, send its error. */
  method Refill(t: File, copyErr: Option<Error>, reopenErr: Option<Error>)
    modifies t`log, t`errc
    ensures t.State() == Then(old(t.State()), RefillStep(copyErr, reopenErr))
  {
    var err := Fill(t, copyErr);
    if err.Some? {
      err := t.ReopenFile(reopenErr);
      if err.Some? {
        t.Send(err.value);
      }
    }
  }

  /** What a fill loop observes at the head of an iteration: either that the
      File has been closed, or the outcomes of that iteration's io.Copy and
      (if it is called) reopenFile. */
  datatype RefillTick = Closed | Tick(copyErr: Option<Error>, reopenErr: Option<Error>)

  /** A fill loop run over a schedule of ticks, starting from trace `tr`: it
      stops as soon as `closed` is seen and otherwise steps once per tick. */
  function RefillRun(tr: Trace, ticks: seq<RefillTick>): (r: Trace)
    ensures tr.log <= r.log && tr.errc <= r.errc
    ensures |r.errc| <= |tr.errc| + |ticks|
    ensures r.closed <==> tr.closed || Closed in ticks
    ensures tr.closed ==> r == tr
    decreases |ticks|
  {
    if tr.closed || ticks == [] then tr
    else match ticks[0]
      case Closed => tr.(closed := true)
      case Tick(copyErr, reopenErr) =>
        assert ticks == [ticks[0]] + ticks[1..];
        RefillRun(Then(tr, RefillStep(copyErr, reopenErr)), ticks[1..])
  }

  /** Nothing after the tick where `closed` is seen has any effect. */
  lemma {:induction false} RefillRunStopsAtClose(tr: Trace, pre: seq<RefillTick>, rest: seq<RefillTick>)
    ensures RefillRun(tr, pre + [Closed] + rest) == RefillRun(tr, pre + [Closed])
    decreases |pre|
  {
    if !tr.closed && pre != [] {
      assert (pre + [Closed] + rest)[1..] == pre[1..] + [Closed] + rest;
      assert (pre + [Closed])[1..] == pre[1..] + [Closed];
      if pre[0].Tick? {
        RefillRunStopsAtClose(Then(tr, RefillStep(pre[0].copyErr, pre[0].reopenErr)), pre[1..], rest);
      }
    }
  }

  /** As long as every copy ends benignly, the loop never reopens and never
      sends an error: only fills happen. */
  lemma {:induction false} RefillRunBenignIsQuiet(tr: Trace, ticks: seq<RefillTick>)
    requires forall i | 0 <= i < |ticks| && ticks[i].Tick? :: Benign(ticks[i].copyErr)
    ensures RefillRun(tr, ticks).errc == tr.errc
    ensures Reopen !in RefillRun(tr, ticks).log[|tr.log|..]
    decreases |ticks|
  {
    if !tr.closed && ticks != [] && ticks[0].Tick? {
      var next := Then(tr, RefillStep(ticks[0].copyErr, ticks[0].reopenErr));
      assert next.log == tr.log + FillActions;
      RefillRunBenignIsQuiet(next, ticks[1..]);
      DropPrefix(tr.log, FillActions, RefillRun(next, ticks[1..]).log);
    }
  }
}

/** The polling strategy: a fill loop and a rotation loop that tracks the
    identity of the file at the path and reopens on rotation or truncation. */
module Polling {
  import opened Tailer
  import Followers

  /** `t.pollForUpdates(d)` (and `pollForChanges`, whose body is the same):
      fill every interval, reopen when the fill fails, send the reopen's
      error when that fails as well; stop once `closed` is seen. */
  method PollForUpdates(t: File, ticks: seq<Followers.RefillTick>)
    modifies t`closed, t`log, t`errc
    ensures t.State() == Followers.RefillRun(old(t.State()), ticks)
  {
    var k := 0;
    while k < |ticks| && !t.closed
      invariant 0 <= k <= |ticks|
      invariant Followers.RefillRun(t.State(), ticks[k..]) == Followers.RefillRun(old(t.State()), ticks)
    {
      assert ticks[k..] == [ticks[k]] + ticks[k + 1..];
      match ticks[k] {
        case Closed =>
          t.closed := true;
        case Tick(copyErr, reopenErr) =>
          Followers.Refill(t, copyErr, reopenErr);
      }
      k := k + 1;
    }
  }

  /** The rotation loop's state after a step: the baseline identity it
      compares the path against, and what the step did. */
  datatype Step = Step(baseline: Option<FileId>, effect: Effect)

  /** Before the loop: the open handle is stat'ed to get the first baseline;
      a failure is sent and leaves no baseline, which matches no file. */
  function StartRotation(handleStat: StatResult): (s: Step)
    ensures s.effect.actions == []
    ensures s.baseline.Some? <==> handleStat.Found?
    ensures handleStat.Found? ==> s.baseline == Some(handleStat.id)
    ensures s.effect.sent != [] <==> handleStat.StatFailed?
    ensures handleStat.StatFailed? ==> s.effect.sent == [handleStat.err]
  {
    match handleStat
    case Found(id) => Step(Some(id), NoEffect)
    case StatFailed(err) => Step(None, Effect([], [err]))
  }

  /** One iteration of `pollForRotations`, given the stat of the path, what
      checkForTruncate reports and how reopenFile ends (each only matters
      where the iteration calls it). */
  function RotationStep(baseline: Option<FileId>, stat: StatResult, truncated: bool, reopenErr: Option<Error>): (s: Step)
    // a missing path (or any stat error): nothing happens
    ensures stat.StatFailed? ==> s == Step(baseline, NoEffect)
    // after a successful stat the baseline is the identity just seen
    ensures stat.Found? ==> s.baseline == Some(stat.id)
    // same file: reopen exactly when it was truncated
    ensures stat.Found? && baseline == Some(stat.id) ==> (Reopen in s.effect.actions <==> truncated)
    // a different file (or no baseline): always reopen
    ensures stat.Found? && baseline != Some(stat.id) ==> Reopen in s.effect.actions
    // at most one reopen, and one send exactly for a failed reopen
    ensures s.effect.actions == [] || s.effect.actions == [Reopen]
    ensures s.effect.sent == if Reopen in s.effect.actions then Sends(reopenErr) else []
  {
    match stat
    case StatFailed(_) => Step(baseline, NoEffect)
    case Found(id) =>
      if baseline == Some(id) then
        if truncated then Step(baseline, Effect([Reopen], Sends(reopenErr)))
        else Step(baseline, NoEffect)
      else
        Step(Some(id), Effect([Reopen], Sends(reopenErr)))
  }

  /** What the rotation loop observes at the head of an iteration. */
  datatype RotationTick =
    | Closed
    | Tick(stat: StatResult, truncated: bool, reopenErr: Option<Error>)

  datatype Rotation = Rotation(baseline: Option<FileId>, trace: Trace)

  /** The rotation loop over a schedule of ticks from baseline `b` and trace `tr`. */
  function RotationRun(b: Option<FileId>, tr: Trace, ticks: seq<RotationTick>): (r: Rotation)
    ensures tr.log <= r.trace.log && tr.errc <= r.trace.errc
    ensures |r.trace.errc| <= |tr.errc| + |ticks|
    ensures |r.trace.log| <= |tr.log| + |ticks|
    ensures r.trace.closed <==> tr.closed || Closed in ticks
    ensures tr.closed ==> r == Rotation(b, tr)
    decreases |ticks|
  {
    if tr.closed || ticks == [] then Rotation(b, tr)
    else match ticks[0]
      case Closed => Rotation(b, tr.(closed := true))
      case Tick(stat, truncated, reopenErr) =>
        assert ticks == [ticks[0]] + ticks[1..];
        var s := RotationStep(b, stat, truncated, reopenErr);
        RotationRun(s.baseline, Then(tr, s.effect), ticks[1..])
  }

  /** A tick the loop acts on is one step followed by the rest of the run. */
  lemma RotationRunTick(b: Option<FileId>, tr: Trace, ticks: seq<RotationTick>)
    requires !tr.closed && ticks != [] && ticks[0].Tick?
    ensures var s := RotationStep(b, ticks[0].stat, ticks[0].truncated, ticks[0].reopenErr);
      RotationRun(b, tr, ticks) == RotationRun(s.baseline, Then(tr, s.effect), ticks[1..])
  {
  }

  /** The stats the loop gets to act on: those before the first `closed`. */
  function StatsBeforeClose(ticks: seq<RotationTick>): seq<StatResult>
    decreases |ticks|
  {
    if ticks == [] || ticks[0].Closed? then []
    else [ticks[0].stat] + StatsBeforeClose(ticks[1..])
  }

  lemma {:induction false} LastFoundPrepend(b: Option<FileId>, s: StatResult, stats: seq<StatResult>)
    ensures LastFound(b, [s] + stats) == LastFound(LastFound(b, [s]), stats)
    decreases |stats|
  {
    if stats != [] {
      var n := |stats|;
      assert ([s] + stats)[..n] == [s] + stats[..n - 1];
      LastFoundPrepend(b, s, stats[..n - 1]);
    }
  }

  /** The baseline the loop ends with is the identity of the last file it
      found at the path, whatever reopens did or failed to do. */
  lemma {:induction false} RotationTracksLastFound(b: Option<FileId>, tr: Trace, ticks: seq<RotationTick>)
    requires !tr.closed
    ensures RotationRun(b, tr, ticks).baseline == LastFound(b, StatsBeforeClose(ticks))
    decreases |ticks|
  {
    if ticks != [] && ticks[0].Tick? {
      var t := ticks[0];
      var s := RotationStep(b, t.stat, t.truncated, t.reopenErr);
      RotationTracksLastFound(s.baseline, Then(tr, s.effect), ticks[1..]);
      LastFoundPrepend(b, t.stat, StatsBeforeClose(ticks[1..]));
      assert LastFound(b, [t.stat]) == s.baseline;
    }
  }

  /** A single iteration sends at most as many errors as it reopens. */
  lemma RotationStepSendsOnlyForReopens(b: Option<FileId>, stat: StatResult, truncated: bool, reopenErr: Option<Error>)
    ensures var e := RotationStep(b, stat, truncated, reopenErr).effect;
      |e.sent| <= Count(e.actions, Reopen)
  {
    var e := RotationStep(b, stat, truncated, reopenErr).effect;
    if e.actions != [] {
      assert e.actions[1..] == [];
    }
  }

  /** Each error the loop sends is the error of a reopen it attempted: over
      any run there are no more sends than reopens. */
  lemma {:induction false} RotationSendsOnlyForReopens(b: Option<FileId>, tr: Trace, ticks: seq<RotationTick>)
    ensures var r := RotationRun(b, tr, ticks);
      |r.trace.errc| - |tr.errc| <= Count(r.trace.log[|tr.log|..], Reopen)
    decreases |ticks|
  {
    if !tr.closed && ticks != [] && ticks[0].Tick? {
      var t := ticks[0];
      var s := RotationStep(b, t.stat, t.truncated, t.reopenErr);
      var next := Then(tr, s.effect);
      var r := RotationRun(s.baseline, next, ticks[1..]);
      RotationRunTick(b, tr, ticks);
      RotationSendsOnlyForReopens(s.baseline, next, ticks[1..]);
      RotationStepSendsOnlyForReopens(b, t.stat, t.truncated, t.reopenErr);
      SendsWithinReopens(tr, s.effect, r.trace);
    }
  }

  /** A step that sends no more than it reopens, followed by a run that
      does the same, together send no more than they reopen. */
  lemma SendsWithinReopens(tr: Trace, e: Effect, r: Trace)
    requires Then(tr, e).log <= r.log
    requires |e.sent| <= Count(e.actions, Reopen)
    requires |r.errc| - |Then(tr, e).errc| <= Count(r.log[|Then(tr, e).log|..], Reopen)
    ensures |r.errc| - |tr.errc| <= Count(r.log[|tr.log|..], Reopen)
  {
    DropPrefix(tr.log, e.actions, r.log);
    CountAppend(e.actions, r.log[|tr.log| + |e.actions|..], Reopen);
  }

  /** One iteration of the rotation loop: compare the identity at the path
      with the baseline and reopen on a new one or on truncation. */
  method Rotate(t: File, previous: Option<FileId>, current: StatResult, truncated: bool, reopenErr: Option<Error>)
    returns (baseline: Option<FileId>)
    modifies t`log, t`errc
    ensures var s := RotationStep(previous, current, truncated, reopenErr);
      baseline == s.baseline && t.State() == Then(old(t.State()), s.effect)
  {
    baseline := previous;
    match current {
      case Found(id) =>
        if previous == Some(id) {
          if truncated {
            var err := t.ReopenFile(reopenErr);
            if err.Some? {
              t.Send(err.value);
            }
          }
        } else {
          baseline := Some(id);
          var err := t.ReopenFile(reopenErr);
          if err.Some? {
            t.Send(err.value);
          }
        }
      case StatFailed(_) =>
        // stat failed: no effect, baseline kept
    }
  }

  /** `t.pollForRotations(d)`: stat the handle for the first baseline, then
      every interval stat the path and reopen on a new identity or on
      truncation of the same one. Returns the final baseline. */
  method PollForRotations(t: File, handleStat: StatResult, ticks: seq<RotationTick>)
    returns (baseline: Option<FileId>)
    modifies t`closed, t`log, t`errc
    ensures var start := StartRotation(handleStat);
      Rotation(baseline, t.State()) == RotationRun(start.baseline, Then(old(t.State()), start.effect), ticks)
  {
    var previous: Option<FileId>;
    match handleStat {
      case Found(id) =>
        previous := Some(id);
      case StatFailed(err) =>
        previous := None;
        t.Send(err);
    }
    ghost var start := t.State();
    assert previous == StartRotation(handleStat).baseline;
    assert start == Then(old(t.State()), StartRotation(handleStat).effect);
    var k := 0;
    while k < |ticks| && !t.closed
      invariant 0 <= k <= |ticks|
      invariant RotationRun(previous, t.State(), ticks[k..]) == RotationRun(StartRotation(handleStat).baseline, start, ticks)
    {
      assert ticks[k..] == [ticks[k]] + ticks[k + 1..];
      match ticks[k] {
        case Closed =>
          t.closed := true;
        case Tick(current, truncated, reopenErr) =>
          previous := Rotate(t, previous, current, truncated, reopenErr);
      }
      k := k + 1;
    }
    baseline := previous;
  }
}

/** The notification strategy: translate filesystem events on the tracked
    path into fill and reopen actions, falling back from watching the parent
    directory to watching the file itself plus a slow identity poll. */
module Notify {
  import opened Tailer
  import Followers
  import Utils

  // ---------------------------------------------------------------------
  // fsnotify operations: a bitmask of single-bit flags. The library's
  // values are not part of this model; these are assumed, each a distinct
  // single bit.

  const Create: bv32 := 1
  const Write: bv32 := 2
  const Remove: bv32 := 4
  const Rename: bv32 := 8
  const Chmod: bv32 := 16

  /** The union of every operation the handler recognises. */
  const KnownOps: bv32 := Create | Write | Remove | Rename | Chmod

  /** An fsnotify.Event: the path it concerns and its operation bits. */
  datatype Event = Event(name: string, op: bv32)

  type BitIndex = i: bv32 | i < 32

  predicate HasBit(x: bv32, i: BitIndex)
  {
    (x >> i) & 1 == 1
  }

  /** `isOp(ev, op)`: every bit of `op` is set in the event's operation. */
  function IsOp(ev: Event, op: bv32): (r: bool)
    ensures r <==> forall i: BitIndex :: HasBit(op, i) ==> HasBit(ev.op, i)
  {
    CoverMeansEveryBit(ev.op, op);
    ev.op & op == op
  }

  lemma CoverMeansEveryBit(x: bv32, op: bv32)
    ensures x & op == op <==> forall i: BitIndex :: HasBit(op, i) ==> HasBit(x, i)
  {
    if x & op == op {
      CoveredBits(x, op);
    } else {
      var i := UncoveredBit(x, op);
      BitOfDifference(x, op, i);
    }
  }

  lemma CoveredBits(x: bv32, op: bv32)
    requires x & op == op
    ensures forall i: BitIndex :: HasBit(op, i) ==> HasBit(x, i)
  {
    forall i: BitIndex | HasBit(op, i)
      ensures HasBit(x, i)
    {
      BitOfAnd(x, op, i);
    }
  }

  /** When `op` is not covered by `x`, some bit of `op` is missing from `x`. */
  lemma UncoveredBit(x: bv32, op: bv32) returns (i: BitIndex)
    requires x & op != op
    ensures HasBit(op & !x, i)
  {
    NonzeroDifference(x, op);
    assert (op & !x) >> 0 == op & !x;
    i := SetBitFrom(op & !x, 0);
  }

  lemma NonzeroDifference(x: bv32, op: bv32)
    requires x & op != op
    ensures op & !x != 0
  {
  }

  lemma BitOfAnd(x: bv32, y: bv32, i: BitIndex)
    ensures HasBit(x & y, i) <==> HasBit(x, i) && HasBit(y, i)
  {
  }

  lemma BitOfDifference(x: bv32, op: bv32, i: BitIndex)
    ensures HasBit(op & !x, i) <==> HasBit(op, i) && !HasBit(x, i)
  {
  }

  /** The index of some set bit of `d` at or above position `k`. */
  function SetBitFrom(d: bv32, k: bv32): (i: BitIndex)
    requires k < 32
    requires d >> k != 0
    ensures k <= i && HasBit(d, i)
    decreases 32 - k
  {
    if (d >> k) & 1 == 1 then k
    else SetBitFrom(d, k + 1)
  }

  // ---------------------------------------------------------------------
  // handleFileEvent

  /** The case of handleFileEvent's switch that an event falls into. */
  datatype Branch = OnCreate | OnWrite | OnRemoveOrRename | OnChmod | OnUnknown

  /** The switch of handleFileEvent: the first case that matches wins. */
  function Dispatch(ev: Event): (b: Branch)
    ensures b == OnCreate <==> IsOp(ev, Create)
    ensures b == OnWrite <==> !IsOp(ev, Create) && IsOp(ev, Write)
    ensures b == OnRemoveOrRename <==>
      !IsOp(ev, Create) && !IsOp(ev, Write) && (IsOp(ev, Remove) || IsOp(ev, Rename))
    ensures b == OnChmod <==>
      !IsOp(ev, Create) && !IsOp(ev, Write) && !IsOp(ev, Remove) && !IsOp(ev, Rename) && IsOp(ev, Chmod)
    ensures b == OnUnknown <==> ev.op & KnownOps == 0
  {
    if IsOp(ev, Create) then OnCreate
    else if IsOp(ev, Write) then OnWrite
    else if IsOp(ev, Remove) || IsOp(ev, Rename) then OnRemoveOrRename
    else if IsOp(ev, Chmod) then OnChmod
    else OnUnknown
  }

  /** The outcomes of the calls handleFileEvent may make: whether
      checkForTruncate sees a truncation, how reopenFile ends and what
      io.Copy ends with. Each only matters where the handler calls it. */
  datatype HandleObs = HandleObs(truncated: bool, reopenErr: Option<Error>, copyErr: Option<Error>)

  /** handleFileEvent either returns an error value or panics. */
  datatype Outcome = Returned(err: Option<Error>) | Panicked

  datatype Handled = Handled(effect: Effect, outcome: Outcome)

  /** What `t.handleFileEvent(ev)` does and how it ends. */
  function HandleEvent(ev: Event, obs: HandleObs): (h: Handled)
    // a create reopens and nothing else, even when Write is also set
    ensures IsOp(ev, Create) ==>
      h.effect == Effect([Reopen], []) && h.outcome == Returned(obs.reopenErr)
    // a write reopens first if the file was truncated, sending (not
    // returning) a failure, and then fills; fill's result is what is returned
    ensures !IsOp(ev, Create) && IsOp(ev, Write) ==>
      && h.effect.actions == (if obs.truncated then [Reopen] else []) + Followers.FillActions
      && h.effect.sent == (if obs.truncated then Sends(obs.reopenErr) else [])
      && h.outcome == Returned(Followers.FillResult(obs.copyErr))
    // an event with none of the five bits is fatal and does nothing first
    ensures h.outcome.Panicked? <==> ev.op & KnownOps == 0
    ensures h.outcome.Panicked? ==> h.effect == NoEffect
    // remove, rename and chmod alone do nothing
    ensures !IsOp(ev, Create) && !IsOp(ev, Write) && ev.op & KnownOps != 0 ==>
      h == Handled(NoEffect, Returned(None))
  {
    match Dispatch(ev)
    case OnCreate => Handled(Effect([Reopen], []), Returned(obs.reopenErr))
    case OnWrite =>
      var reopen := if obs.truncated then Effect([Reopen], Sends(obs.reopenErr)) else NoEffect;
      Handled(Effect(reopen.actions + Followers.FillActions, reopen.sent),
              Returned(Followers.FillResult(obs.copyErr)))
    case OnRemoveOrRename => Handled(NoEffect, Returned(None))
    case OnChmod => Handled(NoEffect, Returned(None))
    case OnUnknown => Handled(NoEffect, Panicked)
  }

  /** `t.handleFileEvent(ev)` */
  method HandleFileEvent(t: File, ev: Event, obs: HandleObs) returns (out: Outcome)
    modifies t`log, t`errc
    ensures t.log == old(t.log) + HandleEvent(ev, obs).effect.actions
    ensures t.errc == old(t.errc) + HandleEvent(ev, obs).effect.sent
    ensures out == HandleEvent(ev, obs).outcome
  {
    match Dispatch(ev)
    case OnCreate =>
      // create: reopen, and return its error
      var err := t.ReopenFile(obs.reopenErr);
      out := Returned(err);
    case OnWrite =>
      if obs.truncated {
        var err := t.ReopenFile(obs.reopenErr);
        if err.Some? {
          t.Send(err.value);
        }
      }
      var err := Followers.Fill(t, obs.copyErr);
      out := Returned(err);
    case OnRemoveOrRename =>
      // remove or rename: no action, nil
      out := Returned(None);
    case OnChmod =>
      out := Returned(None);
    case OnUnknown =>
      out := Panicked;
  }

  // ---------------------------------------------------------------------
  // notifyOnChanges: setup

  /** The outcome of notifyOnChanges' setup: the watches it adds, the error
      it returns, the baseline of the identity poll loop if it starts one,
      and whether the event loop starts. */
  datatype Setup = Setup(actions: seq<Action>, err: Option<Error>, rewatchFrom: Option<FileId>, listening: bool)

  /** Setup given how fsnotify.NewWatcher, the directory watch, the file
      watch and the stat of the open handle end. */
  function NotifySetup(watcherErr: Option<Error>, dirErr: Option<Error>, fileErr: Option<Error>,
                       handleStat: StatResult): (s: Setup)
    ensures s.err.Some? <==> watcherErr.Some? || (dirErr.Some? && (fileErr.Some? || handleStat.StatFailed?))
    ensures s.listening <==> s.err.None?
    ensures s.rewatchFrom.Some? <==> s.listening && dirErr.Some?
    ensures s.rewatchFrom.Some? ==> handleStat == Found(s.rewatchFrom.value)
    ensures watcherErr.Some? ==> s.actions == [] && s.err == watcherErr
    ensures watcherErr.None? && dirErr.Some? && fileErr.Some? ==> s.err == fileErr
    ensures watcherErr.None? && dirErr.Some? && fileErr.None? && handleStat.StatFailed? ==>
      s.err == Some(handleStat.err)
    // the directory is always tried first; the file itself only when that fails
    ensures s.actions == if watcherErr.Some? then []
                         else if dirErr.None? then [WatchAdd(ParentDir)]
                         else [WatchAdd(ParentDir), WatchAdd(TrackedPath)]
  {
    if watcherErr.Some? then Setup([], watcherErr, None, false)
    else if dirErr.None? then Setup([WatchAdd(ParentDir)], None, None, true)
    else
      var added := [WatchAdd(ParentDir), WatchAdd(TrackedPath)];
      if fileErr.Some? then Setup(added, fileErr, None, false)
      else match handleStat
        case StatFailed(err) => Setup(added, Some(err), None, false)
        case Found(id) => Setup(added, None, Some(id), true)
  }

  // ---------------------------------------------------------------------
  // notifyOnChanges: the identity poll loop, run when only the file itself
  // is watched, so that a rotation of the path is noticed and re-watched

  datatype RewatchTick =
    | Closed
    | Tick(stat: StatResult, watchErr: Option<Error>, reopenErr: Option<Error>)

  datatype Rewatch = Rewatch(baseline: FileId, effect: Effect)

  /** One iteration: stat the path; when a different file is there, watch
      it and reopen (both are attempted, each failure is sent on its own)
      and adopt its identity. */
  function RewatchStep(baseline: FileId, stat: StatResult, watchErr: Option<Error>, reopenErr: Option<Error>): (r: Rewatch)
    ensures stat.StatFailed? || stat.id == baseline ==> r == Rewatch(baseline, NoEffect)
    ensures stat.Found? ==> r.baseline == stat.id
    ensures stat.Found? && stat.id != baseline ==>
      && r.effect.actions == [WatchAdd(TrackedPath), Reopen]
      && r.effect.sent == Sends(watchErr) + Sends(reopenErr)
  {
    match stat
    case StatFailed(_) => Rewatch(baseline, NoEffect)
    case Found(id) =>
      if id == baseline then Rewatch(baseline, NoEffect)
      else Rewatch(id, Effect([WatchAdd(TrackedPath), Reopen], Sends(watchErr) + Sends(reopenErr)))
  }

  datatype RewatchRunResult = RewatchRunResult(baseline: FileId, trace: Trace)

  function RewatchRun(b: FileId, tr: Trace, ticks: seq<RewatchTick>): (r: RewatchRunResult)
    ensures tr.log <= r.trace.log && tr.errc <= r.trace.errc
    ensures |r.trace.errc| <= |tr.errc| + 2 * |ticks|
    ensures r.trace.closed <==> tr.closed || RewatchTick.Closed in ticks
    ensures tr.closed ==> r == RewatchRunResult(b, tr)
    decreases |ticks|
  {
    if tr.closed || ticks == [] then RewatchRunResult(b, tr)
    else match ticks[0]
      case Closed => RewatchRunResult(b, tr.(closed := true))
      case Tick(stat, watchErr, reopenErr) =>
        assert ticks == [ticks[0]] + ticks[1..];
        var s := RewatchStep(b, stat, watchErr, reopenErr);
        RewatchRun(s.baseline, Then(tr, s.effect), ticks[1..])
  }

  /** A single iteration re-watches the path exactly as often as it reopens. */
  lemma RewatchStepPairs(baseline: FileId, stat: StatResult, watchErr: Option<Error>, reopenErr: Option<Error>)
    ensures var a := RewatchStep(baseline, stat, watchErr, reopenErr).effect.actions;
      Count(a, WatchAdd(TrackedPath)) == Count(a, Reopen)
  {
    var a := RewatchStep(baseline, stat, watchErr, reopenErr).effect.actions;
    if a != [] {
      assert a[1..][1..] == [];
    }
  }

  /** Every reopen of the loop comes with a fresh watch of the path, so the
      watch always follows the file that was reopened. */
  lemma {:induction false} RewatchPairsWatchWithReopen(b: FileId, tr: Trace, ticks: seq<RewatchTick>)
    ensures var added := RewatchRun(b, tr, ticks).trace.log[|tr.log|..];
      Count(added, WatchAdd(TrackedPath)) == Count(added, Reopen)
    decreases |ticks|
  {
    if !tr.closed && ticks != [] && ticks[0].Tick? {
      var t := ticks[0];
      var s := RewatchStep(b, t.stat, t.watchErr, t.reopenErr);
      var next := Then(tr, s.effect);
      var r := RewatchRun(s.baseline, next, ticks[1..]);
      RewatchRunTick(b, tr, ticks);
      RewatchPairsWatchWithReopen(s.baseline, next, ticks[1..]);
      DropPrefix(tr.log, s.effect.actions, r.trace.log);
      var rest := r.trace.log[|next.log|..];
      RewatchStepPairs(b, t.stat, t.watchErr, t.reopenErr);
      CountAppend(s.effect.actions, rest, WatchAdd(TrackedPath));
      CountAppend(s.effect.actions, rest, Reopen);
    } else {
      assert RewatchRun(b, tr, ticks).trace.log[|tr.log|..] == [];
    }
  }

  /** A tick the loop acts on is one step followed by the rest of the run. */
  lemma RewatchRunTick(b: FileId, tr: Trace, ticks: seq<RewatchTick>)
    requires !tr.closed && ticks != [] && ticks[0].Tick?
    ensures var s := RewatchStep(b, ticks[0].stat, ticks[0].watchErr, ticks[0].reopenErr);
      RewatchRun(b, tr, ticks) == RewatchRun(s.baseline, Then(tr, s.effect), ticks[1..])
  {
  }

  /** One iteration of the identity poll: on a new identity at the path,
      watch it, reopen, send each failure, and adopt the new identity. */
  method RewatchOnce(t: File, oldFile: FileId, newFile: StatResult, watchErr: Option<Error>, reopenErr: Option<Error>)
    returns (baseline: FileId)
    modifies t`log, t`errc
    ensures var s := RewatchStep(oldFile, newFile, watchErr, reopenErr);
      baseline == s.baseline && t.State() == Then(old(t.State()), s.effect)
  {
    baseline := oldFile;
    match newFile {
      case Found(id) =>
        if id != oldFile {
          t.log := t.log + [WatchAdd(TrackedPath)];
          if watchErr.Some? {
            t.Send(watchErr.value);
          }
          var err := t.ReopenFile(reopenErr);
          if err.Some? {
            t.Send(err.value);
          }
          baseline := id;
        }
      case StatFailed(_) =>
        // stat failed: no effect, baseline kept
    }
  }

  /** The poll goroutine of notifyOnChanges, from the identity of the open
      handle; returns the identity it ends up tracking. */
  method PollPathIdentity(t: File, start: FileId, ticks: seq<RewatchTick>) returns (baseline: FileId)
    modifies t`closed, t`log, t`errc
    ensures RewatchRunResult(baseline, t.State()) == RewatchRun(start, old(t.State()), ticks)
  {
    var oldFile := start;
    var k := 0;
    while k < |ticks| && !t.closed
      invariant 0 <= k <= |ticks|
      invariant RewatchRun(oldFile, t.State(), ticks[k..]) == RewatchRun(start, old(t.State()), ticks)
    {
      assert ticks[k..] == [ticks[k]] + ticks[k + 1..];
      match ticks[k] {
        case Closed =>
          t.closed := true;
        case Tick(newFile, watchErr, reopenErr) =>
          oldFile := RewatchOnce(t, oldFile, newFile, watchErr, reopenErr);
      }
      k := k + 1;
    }
    baseline := oldFile;
  }

  // ---------------------------------------------------------------------
  // notifyOnChanges: the event loop

  /** What the event loop observes in one iteration: that the File has been
      closed (at the loop head), or what its select receives. */
  datatype Receive =
    | Closed
    | EventRecv(ev: Event, obs: HandleObs)
    | EventsClosed
    | ErrorRecv(err: Option<Error>)
    | ErrorsClosed

  /** How an observed run of the event loop ends: still waiting for more,
      stopped by `closed`, returned on a closed channel, or crashed by the
      handler's panic. */
  datatype LoopEnd = Listening | Stopped | ChannelClosed | Crashed

  datatype EventLoopResult = EventLoopResult(trace: Trace, end: LoopEnd)

  /** The effect of handling one event whose handler returned: its own
      effect, then the send of the error it returned. */
  function Forwarded(h: Handled): Effect
    requires h.outcome.Returned?
  {
    Effect(h.effect.actions, h.effect.sent + Sends(h.outcome.err))
  }

  function EventRun(abs: string -> Option<string>, filename: string, tr: Trace, rs: seq<Receive>): (r: EventLoopResult)
    ensures tr.log <= r.trace.log && tr.errc <= r.trace.errc
    ensures |r.trace.errc| <= |tr.errc| + 2 * |rs|
    ensures r.trace.closed <==> tr.closed || (r.end == Stopped && Receive.Closed in rs)
    ensures tr.closed ==> r == EventLoopResult(tr, Stopped)
    decreases |rs|
  {
    if tr.closed then EventLoopResult(tr, Stopped)
    else if rs == [] then EventLoopResult(tr, Listening)
    else
      assert rs == [rs[0]] + rs[1..];
      match rs[0]
      case Closed => EventLoopResult(tr.(closed := true), Stopped)
      case EventsClosed => EventLoopResult(tr, ChannelClosed)
      case ErrorsClosed => EventLoopResult(tr, ChannelClosed)
      case ErrorRecv(err) => EventRun(abs, filename, Then(tr, Effect([], Sends(err))), rs[1..])
      case EventRecv(ev, obs) =>
        if !Utils.PathEqual(abs, ev.name, filename) then EventRun(abs, filename, tr, rs[1..])
        else
          var h := HandleEvent(ev, obs);
          if h.outcome.Panicked? then EventLoopResult(Then(tr, h.effect), Crashed)
          else EventRun(abs, filename, Then(tr, Forwarded(h)), rs[1..])
  }

  /** A non-nil error from the watcher is forwarded to the error channel as is. */
  lemma WatcherErrorForwarded(abs: string -> Option<string>, filename: string, tr: Trace,
                              err: Error, rs: seq<Receive>)
    requires !tr.closed
    ensures EventRun(abs, filename, tr, [ErrorRecv(Some(err))] + rs)
         == EventRun(abs, filename, tr.(errc := tr.errc + [err]), rs)
  {
    assert ([ErrorRecv(Some(err))] + rs)[1..] == rs;
    assert Then(tr, Effect([], Sends(Some(err)))) == tr.(errc := tr.errc + [err]);
  }

  /** An event for the tracked path is handled; whatever the handler sends,
      and then the error it returns, reach the error channel in that order. */
  lemma HandlerErrorForwarded(abs: string -> Option<string>, filename: string, tr: Trace,
                              ev: Event, obs: HandleObs, rs: seq<Receive>)
    requires !tr.closed
    requires Utils.PathEqual(abs, ev.name, filename)
    requires HandleEvent(ev, obs).outcome.Returned?
    ensures var h := HandleEvent(ev, obs);
      EventRun(abs, filename, tr, [EventRecv(ev, obs)] + rs)
        == EventRun(abs, filename, tr.(log := tr.log + h.effect.actions,
                                       errc := tr.errc + h.effect.sent + Sends(h.outcome.err)), rs)
  {
    var h := HandleEvent(ev, obs);
    var rs' := [EventRecv(ev, obs)] + rs;
    assert rs'[0] == EventRecv(ev, obs) && rs'[1..] == rs;
    ForwardedTrace(tr, h);
  }

  lemma ForwardedTrace(tr: Trace, h: Handled)
    requires h.outcome.Returned?
    ensures Then(tr, Forwarded(h))
         == tr.(log := tr.log + h.effect.actions, errc := tr.errc + h.effect.sent + Sends(h.outcome.err))
  {
    assert tr.errc + (h.effect.sent + Sends(h.outcome.err)) == tr.errc + h.effect.sent + Sends(h.outcome.err);
  }

  /** Which receptions end the loop. */
  predicate Ends(x: Receive)
  {
    x.Closed? || x.EventsClosed? || x.ErrorsClosed?
  }

  /** Once `closed` is seen or either channel is closed, nothing that
      follows has any effect. */
  lemma {:induction false} EventRunStopsAtEnd(abs: string -> Option<string>, filename: string, tr: Trace,
                                               pre: seq<Receive>, x: Receive, rest: seq<Receive>)
    requires Ends(x)
    ensures EventRun(abs, filename, tr, pre + [x] + rest) == EventRun(abs, filename, tr, pre + [x])
    decreases |pre|
  {
    if !tr.closed {
      if pre == [] {
        assert (pre + [x] + rest)[0] == x && (pre + [x])[0] == x;
      } else {
        assert (pre + [x] + rest)[0] == pre[0] && (pre + [x])[0] == pre[0];
        assert (pre + [x] + rest)[1..] == pre[1..] + [x] + rest;
        assert (pre + [x])[1..] == pre[1..] + [x];
        match pre[0]
        case Closed =>
        case EventsClosed =>
        case ErrorsClosed =>
        case ErrorRecv(err) =>
          EventRunStopsAtEnd(abs, filename, Then(tr, Effect([], Sends(err))), pre[1..], x, rest);
        case EventRecv(ev, obs) =>
          if !Utils.PathEqual(abs, ev.name, filename) {
            EventRunStopsAtEnd(abs, filename, tr, pre[1..], x, rest);
          } else {
            var h := HandleEvent(ev, obs);
            if h.outcome.Returned? {
              EventRunStopsAtEnd(abs, filename, Then(tr, Forwarded(h)), pre[1..], x, rest);
            }
          }
      }
    }
  }

  /** An event for any path other than the tracked one is dropped: the run
      goes on exactly as if it had not been received. */
  lemma EventRunSkipsOtherPath(abs: string -> Option<string>, filename: string, tr: Trace,
                               ev: Event, obs: HandleObs, rs: seq<Receive>)
    requires !tr.closed
    requires !Utils.PathEqual(abs, ev.name, filename)
    ensures EventRun(abs, filename, tr, [EventRecv(ev, obs)] + rs) == EventRun(abs, filename, tr, rs)
  {
    assert ([EventRecv(ev, obs)] + rs)[1..] == rs;
  }

  /** When no received event names the file, the loop performs no action at
      all and what it sends is the watcher's own errors, in order (a prefix
      of them, since it may stop early). */
  lemma {:induction false} EventRunIgnoresOtherPaths(abs: string -> Option<string>, filename: string, tr: Trace, rs: seq<Receive>)
    requires forall i | 0 <= i < |rs| && rs[i].EventRecv? :: !Utils.PathEqual(abs, rs[i].ev.name, filename)
    ensures EventRun(abs, filename, tr, rs).trace.log == tr.log
    ensures EventRun(abs, filename, tr, rs).end != Crashed
    ensures |EventRun(abs, filename, tr, rs).trace.errc| - |tr.errc| <= |ErrorsSeen(rs)|
    ensures EventRun(abs, filename, tr, rs).trace.errc[|tr.errc|..] <= ErrorsSeen(rs)
    decreases |rs|
  {
    if !tr.closed && rs != [] {
      match rs[0]
      case Closed =>
      case EventsClosed =>
      case ErrorsClosed =>
      case ErrorRecv(err) =>
        EventRunIgnoresOtherPaths(abs, filename, Then(tr, Effect([], Sends(err))), rs[1..]);
      case EventRecv(ev, obs) =>
        EventRunIgnoresOtherPaths(abs, filename, tr, rs[1..]);
    }
    EventRunSendsOnlyWatcherErrors(abs, filename, tr, rs);
  }

  /** The errors sent by a run in which no event names the file are the
      first of the errors the watcher delivered. */
  lemma {:induction false} EventRunSendsOnlyWatcherErrors(abs: string -> Option<string>, filename: string,
                                                          tr: Trace, rs: seq<Receive>)
    requires forall i | 0 <= i < |rs| && rs[i].EventRecv? :: !Utils.PathEqual(abs, rs[i].ev.name, filename)
    ensures EventRun(abs, filename, tr, rs).trace.errc[|tr.errc|..] <= ErrorsSeen(rs)
    decreases |rs|
  {
    if tr.closed || rs == [] || Ends(rs[0]) {
      assert EventRun(abs, filename, tr, rs).trace.errc[|tr.errc|..] == [];
    } else {
      assert rs == [rs[0]] + rs[1..];
      var next := if rs[0].ErrorRecv? then Then(tr, Effect([], Sends(rs[0].err))) else tr;
      var sent := if rs[0].ErrorRecv? then Sends(rs[0].err) else [];
      var r := EventRun(abs, filename, next, rs[1..]);
      if rs[0].ErrorRecv? {
        EventRunErrorRecv(abs, filename, tr, rs[0].err, rs[1..]);
      } else {
        EventRunSkipsOtherPath(abs, filename, tr, rs[0].ev, rs[0].obs, rs[1..]);
      }
      assert EventRun(abs, filename, tr, rs) == r;
      EventRunSendsOnlyWatcherErrors(abs, filename, next, rs[1..]);
      assert next.errc == tr.errc + sent;
      DropPrefix(tr.errc, sent, r.trace.errc);
      assert ErrorsSeen(rs) == sent + ErrorsSeen(rs[1..]);
    }
  }

  /** A reception from the error channel sends what it received, if anything. */
  lemma EventRunErrorRecv(abs: string -> Option<string>, filename: string, tr: Trace,
                          err: Option<Error>, rs: seq<Receive>)
    requires !tr.closed
    ensures EventRun(abs, filename, tr, [ErrorRecv(err)] + rs)
         == EventRun(abs, filename, Then(tr, Effect([], Sends(err))), rs)
  {
    assert ([ErrorRecv(err)] + rs)[1..] == rs;
  }

  /** The non-nil errors the watcher delivers in `rs`. */
  function ErrorsSeen(rs: seq<Receive>): seq<Error>
    decreases |rs|
  {
    if rs == [] then []
    else (if rs[0].ErrorRecv? then Sends(rs[0].err) else []) + ErrorsSeen(rs[1..])
  }

  /** The event goroutine of notifyOnChanges. `abs` stands for
      filepath.Abs; the result says how the observed run ended. */
  method WatchEvents(t: File, abs: string -> Option<string>, rs: seq<Receive>) returns (end: LoopEnd)
    modifies t`closed, t`log, t`errc
    ensures EventLoopResult(t.State(), end) == EventRun(abs, t.filename, old(t.State()), rs)
  {
    var k := 0;
    while k < |rs| && !t.closed
      invariant 0 <= k <= |rs|
      invariant EventRun(abs, t.filename, t.State(), rs[k..]) == EventRun(abs, t.filename, old(t.State()), rs)
    {
      assert rs[k..] == [rs[k]] + rs[k + 1..];
      match rs[k] {
        case Closed =>
          t.closed := true;
        case EventsClosed =>
          return ChannelClosed;
        case ErrorsClosed =>
          return ChannelClosed;
        case ErrorRecv(err) =>
          ghost var expected := Then(t.State(), Effect([], Sends(err)));
          if err.Some? {
            t.Send(err.value);
          }
          assert t.State() == expected;
        case EventRecv(ev, obs) =>
          if Utils.PathEqual(abs, ev.name, t.filename) {
            ghost var before := t.State();
            var out := HandleFileEvent(t, ev, obs);
            if out.Panicked? {
              return Crashed;
            }
            if out.err.Some? {
              t.Send(out.err.value);
            }
            assert t.State() == Then(before, Forwarded(HandleEvent(ev, obs)));
          }
      }
      k := k + 1;
    }
    end := if t.closed then Stopped else Listening;
  }
}

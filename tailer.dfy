/** Shared vocabulary of the follower model: error values, file identities,
    the side effects the background loops perform, and the File object whose
    lifecycle flag, action log and error channel those loops update. */
module Tailer {

  datatype Option<T> = None | Some(value: T)

  /** Go error values as the follower tells them apart: io.ErrShortWrite,
      io.EOF, or any other error (distinguished by an opaque code). */
  datatype Error = ErrShortWrite | EOF | IOError(code: nat)

  /** The (device, inode) pair that os.SameFile compares. */
  datatype FileId = FileId(device: nat, inode: nat)

  /** The outcome of os.Stat(path) or File.Stat(): an error (the path is
      missing, or something else went wrong) or the identity of the file. */
  datatype StatResult = StatFailed(err: Error) | Found(id: FileId)

  /** What a watcher.Add call is asked to watch. */
  datatype WatchTarget = ParentDir | TrackedPath

  /** Side effects on the open handle, the ring buffer and the watcher, in
      the order they are performed. */
  datatype Action =
    | Lock                          // t.fmu.Lock()
    | Copy                          // io.Copy(t.ring, t.file)
    | Unlock                        // t.fmu.Unlock()
    | Reopen                        // t.reopenFile()
    | WatchAdd(target: WatchTarget) // w.Add(...)

  /** What one step does: the actions it performs and the errors it sends. */
  datatype Effect = Effect(actions: seq<Action>, sent: seq<Error>)

  const NoEffect: Effect := Effect([], [])

  /** The sends of `if err != nil { t.errc <- err }`. */
  function Sends(err: Option<Error>): (s: seq<Error>)
    ensures |s| <= 1
    ensures s == [] <==> err.None?
    ensures err.Some? ==> s == [err.value]
  {
    match err
    case None => []
    case Some(e) => [e]
  }

  /** Everything an observer of a File can see: the lifecycle flag, the side
      effects so far and every error sent on the error channel, oldest first. */
  datatype Trace = Trace(closed: bool, log: seq<Action>, errc: seq<Error>)

  /** The trace after one more step with effect `e`. */
  function Then(tr: Trace, e: Effect): Trace
  {
    tr.(log := tr.log + e.actions, errc := tr.errc + e.sent)
  }

  /** The identity of the last file found by a sequence of stats, or `b`
      when none of them found one: the baseline a rotation detector should
      be tracking after those stats. */
  function LastFound(b: Option<FileId>, stats: seq<StatResult>): Option<FileId>
    decreases |stats|
  {
    if stats == [] then b
    else match stats[|stats| - 1]
      case Found(id) => Some(id)
      case StatFailed(_) => LastFound(b, stats[..|stats| - 1])
  }

  /** How many times `x` occurs in `xs`. */
  function Count(xs: seq<Action>, x: Action): nat
    decreases |xs|
  {
    if xs == [] then 0 else (if xs[0] == x then 1 else 0) + Count(xs[1..], x)
  }

  lemma {:induction false} CountAppend(xs: seq<Action>, ys: seq<Action>, x: Action)
    ensures Count(xs + ys, x) == Count(xs, x) + Count(ys, x)
    decreases |xs|
  {
    if xs != [] {
      assert (xs + ys)[0] == xs[0];
      assert (xs + ys)[1..] == xs[1..] + ys;
      CountAppend(xs[1..], ys, x);
    } else {
      assert xs + ys == ys;
    }
  }

  /** What a run appended after the prefix `a` starts with the step's
      part `e` when `a + e` is itself a prefix of the final sequence. */
  lemma DropPrefix<T>(a: seq<T>, e: seq<T>, c: seq<T>)
    requires a + e <= c
    ensures c[|a|..] == e + c[|a| + |e|..]
  {
    assert c[..|a| + |e|] == a + e;
  }

  /** The tailed file. Only the state that the change-detection loops touch
      is modelled: the `closed` flag, the error channel `errc` (as the
      sequence of every error ever sent on it) and a log of side effects. */
  class File {
    const filename: string
    var closed: bool
    var log: seq<Action>
    var errc: seq<Error>

    function State(): Trace
      reads this
    {
      Trace(closed, log, errc)
    }

    /** `t.errc <- err` */
    method Send(err: Error)
      modifies this`errc
      ensures errc == old(errc) + [err]
    {
      errc := errc + [err];
    }

    /** `t.reopenFile()`. Its body is not part of this model: the call is
        logged and its result is supplied by the caller. */
    method ReopenFile(outcome: Option<Error>) returns (err: Option<Error>)
      modifies this`log
      ensures log == old(log) + [Reopen]
      ensures err == outcome
    {
      log := log + [Reopen];
      err := outcome;
    }
  }
}

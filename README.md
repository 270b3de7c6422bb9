# Change detection and rotation handling of a file follower

This project models the decision logic of `tailer`, a Go library that follows
one file on disk and survives rotation (remove and recreate, rename and
recreate, truncation). A `File` runs background loops. These loops fill a
ring buffer from the open handle, watch the path for a new file identity or
a truncation, and reopen the handle when one is seen. Errors they cannot
recover from go to an error channel, `errc`, which `Read` drains later.

The model covers the two change-detection strategies:

- **polling**: `pollForUpdates` / `pollForChanges` refill the buffer and
  escalate fill → reopen → error channel. `pollForRotations` tracks a
  baseline file identity (device, inode) and reopens on a new identity or on
  truncation.
- **notify**: `notifyOnChanges` watches the parent directory. When that
  watch fails, it watches the file itself and starts a slow identity poll
  that re-watches and reopens after a rename. Its event loop sends the events
  for the tracked path to `handleFileEvent`.

The model works as follows:

- Every call into code that is not modelled is an input. This covers
  `io.Copy`, `os.Stat`, `File.Stat`, `checkForTruncate`, `reopenFile`,
  `fsnotify.NewWatcher`, `Watcher.Add` and `filepath.Abs`.
- Side effects go to an action log `log: seq<Action>`: lock, copy, unlock,
  reopen, watch-add.
- The error channel is the append-only sequence `errc` of every error sent
  on it.
- Each loop walks a finite schedule of ticks. A `Closed` tick means `Close()`
  ran on another goroutine before that check of `t.closed`. The loop records
  the flag and stops there.
- Every loop method is proved equal to a pure `…Run` function over the same
  schedule. The properties are proved about the `…Step` and `…Run` functions.

Files: `tailer.dfy` holds the shared types and the `File` object (`closed`,
`log`, `errc`). `utils.dfy`, `followers.dfy`, `polling.dfy` and `notify.dfy`
follow the Go files of the same names.

Three behaviours of the code worth noting:

- An event with none of the five known operation bits makes `handleFileEvent`
  panic. It does not send an error. The model ends the event loop in
  `Crashed`.
- Setup in the notify strategy also fails when stat-ing the open handle
  fails, and not only when both watches fail.
- The watcher is never closed. Nothing in the modelled code closes it, on
  setup failure or at teardown.

## Model

| member | source | states |
|---|---|---|
| `Utils.IMin` | utils.go:18-23 | the result is at most both arguments and equals one of them |
| `Utils.IMinChoice` | utils.go:19-22 | `a` is returned when `a < b`, otherwise `b`; the minimum does not depend on argument order |
| `Utils.PathEqual` | utils.go:5-16 | true iff both Abs calls succeed and give the same absolute path |
| `Utils.PathEqualNeedsAbs` | utils.go:7-14 | a failing Abs on either side makes the paths unequal |
| `Utils.PathEqualEquivalence` | utils.go:5-16 | symmetric, reflexive exactly where Abs succeeds, transitive |
| `Followers.FillResult` | followers.go:13-18 | fill returns nil iff the copy ended with nil, ErrShortWrite or EOF; any other copy error is returned unchanged |
| `Followers.Fill` | followers.go:9-19 | logs lock, copy, unlock on every path before classifying; returns `FillResult`; never touches the error channel (not in its frame) |
| `Followers.RefillStep` | followers.go:23-27 | one fill-loop iteration's actions are exactly lock, copy, unlock, followed by a single reopen iff the fill failed; at most one send; an error is sent iff fill and reopen both failed, and it is the reopen's error |
| `Followers.Refill` | followers.go:23-27 | one iteration of a fill loop (also polling.go:11-15) appends exactly `RefillStep`'s actions and sends, and leaves `closed` alone |
| `Followers.RefillRun` | followers.go:21-30 | a fill-loop run only appends to log and errc; at most one error per iteration; ends closed iff a Closed tick was reached; no step once closed |
| `Followers.RefillRunStopsAtClose` | followers.go:22 | ticks after the first Closed tick have no effect |
| `Followers.RefillRunBenignIsQuiet` | followers.go:23-26 | while every copy ends benignly, the loop neither reopens nor sends |
| `Polling.PollForUpdates` | polling.go:9-19 | the loop's new closed flag, log and errc are exactly `RefillRun` over its schedule |
| `Polling.StartRotation` | polling.go:23-26 | a failed handle stat is sent and leaves no baseline; a successful one makes the handle's identity the baseline; nothing is reopened |
| `Polling.RotationStep` | polling.go:29-47 | stat error: nothing happens and the baseline stays. Same identity: reopen iff truncated. Different identity (or no baseline): always reopen. After any successful stat the baseline is the identity seen, even when the reopen fails. One send exactly when a reopen fails |
| `Polling.Rotate` | polling.go:29-47 | one iteration of the rotation loop appends exactly `RotationStep`'s actions and sends and returns its new baseline |
| `Polling.RotationRun` | polling.go:28-50 | a rotation-loop run only appends; at most one action and one send per iteration; ends closed iff a Closed tick was reached; no step once closed |
| `Polling.RotationTracksLastFound` | polling.go:31-43 | after any run the baseline is the identity of the last file found at the path (or the initial baseline if none was found) |
| `Polling.RotationSendsOnlyForReopens` | polling.go:34-43 | over any run the loop sends no more errors than it attempts reopens |
| `Polling.PollForRotations` | polling.go:22-51 | the initial handle stat and the loop together yield exactly `RotationRun` from `StartRotation`'s baseline; returns the final baseline |
| `Notify.IsOp` | notify.go:102-104 | true iff every bit of `op` is set in the event's operation |
| `Notify.Dispatch` | notify.go:79-99 | each branch is taken iff its case matches and no earlier case does: Create iff the Create bit is set; Write iff Create is absent and Write present; Remove/Rename iff neither Create nor Write and one of them is present; Chmod iff only Chmod of the five matches; the unknown case is exactly "none of the five bits" |
| `Notify.HandleEvent` | notify.go:78-100 | Create: reopen only, its error returned, never a fill, even with Write set. Write: reopen first when truncated, its failure sent not returned, then fill, whose result is returned. Remove/Rename/Chmod alone: no action, nil. No known bit: panic with no action |
| `Notify.HandleFileEvent` | notify.go:78-100 | appends exactly `HandleEvent`'s actions and sends and returns its outcome |
| `Notify.NotifySetup` | notify.go:12-75 | returns an error iff watcher creation fails, or the directory watch fails and then the file watch or the handle stat fails; the error returned is the watcher's, the file watch's or the handle stat's, unchanged; the watches added are none, the directory alone, or the directory then the file; the event loop starts iff no error; the identity poll starts iff that and the directory watch failed, from the handle's identity |
| `Notify.RewatchStep` | notify.go:31-45 | missing path or same identity: no effect, baseline kept. New identity: re-watch, then reopen, both attempted, each failure sent on its own in that order; the baseline becomes the new identity |
| `Notify.RewatchOnce` | notify.go:31-45 | one iteration of the identity poll appends exactly `RewatchStep`'s actions and sends and returns its new baseline |
| `Notify.RewatchRun` | notify.go:30-47 | an identity-poll run only appends; at most two sends per iteration; ends closed iff a Closed tick was reached |
| `Notify.RewatchPairsWatchWithReopen` | notify.go:34-41 | over any run the path is re-watched exactly as often as the file is reopened |
| `Notify.PollPathIdentity` | notify.go:29-48 | the goroutine's final state and baseline are exactly `RewatchRun` over its schedule |
| `Notify.EventRun` | notify.go:51-73 | an event-loop run only appends; at most two sends per iteration; ends closed only by a Closed tick |
| `Notify.EventRunStopsAtEnd` | notify.go:52-67 | after `closed` is seen or either channel is closed, nothing that follows has any effect |
| `Notify.EventRunSkipsOtherPath` | notify.go:58 | an event for any other path is dropped: the run continues exactly as if it had not been received |
| `Notify.EventRunIgnoresOtherPaths` | notify.go:58-70 | when no event names the tracked path, the loop performs no action, never crashes, and what it sends is a prefix of the watcher's own errors, in order |
| `Notify.EventRunSendsOnlyWatcherErrors` | notify.go:58-70 | when no event names the tracked path, the errors sent are the first of the non-nil errors the watcher delivered, in order |
| `Notify.WatcherErrorForwarded` | notify.go:64-70 | a non-nil watcher error is sent on the error channel as is |
| `Notify.HandlerErrorForwarded` | notify.go:58-63 | for an event on the tracked path, the handler's own sends and then its returned error reach the error channel |
| `Notify.WatchEvents` | notify.go:51-73 | the goroutine's new state and the way it ends are exactly `EventRun` over its schedule |

## Left out

- Goroutines, `time.Sleep` pacing and the unsynchronised `closed` flag are
  not modelled. Each loop is a sequential walk over a schedule of
  observations, and a `Close()` on another goroutine is a `Closed` tick.
- Blocking sends on the error channel are not modelled. A send is an append
  to `errc`, and the channel's buffering is not captured.
- fsnotify, `os.Stat`, `os.SameFile`, `os.OpenFile`, `File.Close`,
  `io.Copy` and `filepath.Abs` are foreign calls. Their results are inputs,
  and `os.SameFile` is equality of (device, inode) identities.
- `checkForTruncate`, `reopenFile`, `NewFile`, `Read` and `Close` of the
  `File` type are not part of this model. Their source is not available, so
  only the outcome that the modelled code observes is an input.
  `File.ReopenFile` logs the call and returns the given outcome.
- The ring buffer (`rbuf.FixedSizeRingBuf`, an external library) is not
  modelled. `Fill` logs the copy but not the bytes copied.
- The values of the fsnotify operation bits come from that library. The
  model assumes Create=1, Write=2, Remove=4, Rename=8, Chmod=16, each a
  distinct single bit.
- main.go and rotations.go are not modelled. They hold an older `Tailer`
  draft that does not compile, and the demo `main`.
- `pathEqual` (notify.go:106-117 and utils.go:5-16) and `isOp`
  (notify.go:102-104 and rotations.go:105-107) are each modelled once.
  `pollForChanges` (followers.go:21-30) has the same body as `pollForUpdates`,
  so `Polling.PollForUpdates` models both.
- `ReadFromStart` in options.go (a one-line seek) is not modelled.
- The test files are not modelled. They are timing-driven tests over real
  files.

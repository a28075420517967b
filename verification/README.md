# Models of zesterm

Dafny 4.11 models of the parts of zesterm whose correctness is hardest to read off the page:
the fleet watchers, the launch hand-off, the latches, the text field, the spring, and a set of
list-building and scanning loops. `dafny verify dfyconfig.toml` checks everything.

Each model has the form its source has. State the source updates in place is a class whose
methods update it in place, each proved equal to a function of the old state; the results are
then proved of that function, or of every run of a transition system whose steps are those
functions. Code that only computes is functions and lemmas.

## What is modelled

| files | source | what |
|---|---|---|
| FleetState, FleetShared | fleet.rs | the critical sections of the shared state, as functions and as methods |
| FleetPlan | fleet.rs, zest-fleet | the snapshot, `best_route`, `watcher_plan` |
| FleetProtocol, FleetSafety | fleet.rs | supervisor, watcher threads of any generation, palette and lane writers as one transition system |
| FleetLatch, FleetNotices | fleet.rs, process.rs | the change latch and its two consumers, and which of the protocol's writes it is told of |
| AccountLoop | fleet.rs | the account poll loop and its doorbell |
| SessionLatch | session.rs | the redraw latch and the two racers for the exit |
| LaunchRules, LaunchProtocol, LaunchSafety | instance.rs, main.rs, process.rs | launchers, the endpoint, connection threads and event loops as one transition system |
| EndpointLock | local.rs, instance.rs | the lock file behind a claim of the endpoint |
| Utf8, CharField, TextFields | text_field.rs | bytes, a reference editor over characters, and the byte-indexed field that refines it |
| Oscillator, Motion | motion.rs | the recurrence behind a substep, and the spring |
| Closing, WindowDrain, WindowProcess | process.rs | removing by index, what the drain should leave, and the drain |
| PictureCache, Backgrounds | background.rs, image.rs | the picture cache against the loader it stands in for |
| FoldView | block_actions.rs, grid | the fold view |
| LauncherMenu, LauncherRows, LauncherBuild | launcher.rs | groups, lines, and the passes that build them |
| Scanning, TextPieces, SourceScan | xtask | scans that jump, and the repository's own source scanners |
| ProfileNames, PasteEscape, EditorLines | profiles_ui.rs, paste_image.rs, editor.rs | name generation, path escaping, lines and tabs |

## What the environment is taken to be

- Dials, reads, hang-ups, spawn failures, elapsed budgets and the scheduler are steps that may
  come in any order at any time. No result rests on how long anything takes.
- A frame that could not be written whole is not read whole by the other end.
- A file saved over does not come back under a stamp it had before. No two of the settings paths
  asked for in a run hash to one id: `PictureCache.FreshExactly` shows that this is needed.
- One process at most holds the claim of the endpoint, in the launch protocol. What that takes of
  the lock file is `EndpointLock.ExclusiveExactly`; on Windows the pipe sees to it.
- The caller of `mark_dirty` asks the window for a redraw, as every caller does, and the session
  is the active tab's: the latch is taken only for the tab being drawn.
- The window's own watcher reports the window's own host.
- The spring is over the reals, with the frame time and settings fixed for a run; 2π is the
  `f32` constant, exactly. The branches for values that are not finite have no counterpart.
- What is alphanumeric, how wide a character is and how a host id is abbreviated are parameters.
  White space in the scanners and in host pins is the ASCII kind.

## Where the code and its comments part

The models follow the code.

- A "cannot search" mark is promised until the host's lane is replaced
  (crates/zest-app/src/fleet.rs:383-385). The exit of a retired connection clears it too:
  `FleetSafety.MarkSurvives`, `FleetSafety.LateExitClearsAMark`.
- The drain closes "highest first, so each index still names the window it did"
  (crates/zest-app/src/process.rs:646). Indices added by a tear-off are not sorted in:
  `WindowDrain.DrainClosesWhatAsked`, `WindowDrain.TornTabIsLost`. The fault is latent: a tear-off
  is raised only in one window's own event (crates/zest-app/src/app/mod.rs:3505-3513), which is
  drained before any other window can ask to close, and then the order holds:
  `WindowDrain.OneWindowIsInOrder`.
- A host that hangs up is not outstanding, "the query row must not wait on it"
  (crates/zest-app/src/fleet.rs:1146-1147). It is taken off the list and nobody is told, so the
  row keeps counting it until something else is drawn: `FleetNotices.HangUpIsNotDrawn`,
  `FleetNotices.UnannouncedExactly`, `FleetLatch.PaintedExactly`.
- The endpoint's files are "unlinked while the lock is still held, so no claimant can bind between
  the two" (crates/zest-daemon/src/local.rs:222-223). A claimant that had opened the lock file by
  then can lock it once the server is gone, while another locks a new one:
  `EndpointLock.ExclusiveExactly`, `EndpointLock.TwoHolders`.
- Redraw wakeups coalesce until the frame is drawn (crates/zest-app/src/session.rs:587-608).
  Claims do; posts may be one more: `SessionLatch.RedrawsBetweenTakes`.
- Every animator must provably settle (crates/zest-app/src/motion.rs:13-18). In the fast corner
  of the clamped settings a spring does not come to rest by itself; it stops when its values
  stop being finite: `Motion.SettlesExactly`, `Motion.FastCornerRunsAway`.
- Every function definition of shipped code is measured (xtask/src/main.rs:882-895). A definition
  whose body closes on the line that opens it is not: with no brace closing in its column further
  down it is missed, and with one it is measured to there and takes in what is defined on the
  way: `SourceScan.ReportedExactly`, `SourceScan.OneLinerIsMissed`,
  `SourceScan.OneLinerTakesInItsNeighbour`.
- An `Ok` read late is said to leave a launch with no window anywhere
  (crates/zest-app/src/instance.rs:55-60). It cannot, under any budgets: `Ok` follows the
  opening, and a launcher that has given up opens its own. What the budgets buy is fewer
  windows too many: `LaunchSafety.EveryLaunchShows`, `LaunchSafety.AtMostOneEach`.

## Model

| member | source | states |
|---|---|---|
| FleetShared.Shared.ApplyListing | crates/zest-app/src/fleet.rs:228-251 | in place: a listing and its offer land only while the caller's stop flag is unset; the return value says whether they did; nothing else moves |
| FleetShared.Shared.ReceiveMatches | crates/zest-app/src/fleet.rs:253-276 | in place: an answer is kept only from an unretired watcher and only when the query it echoes is the one on screen; whether its host was asked is not looked at |
| FleetShared.Shared.DeclineSearch | crates/zest-app/src/fleet.rs:278-292 | in place: a host that cannot search is marked and no longer waited on, unless its watcher is retired |
| FleetShared.Shared.AskLanes | crates/zest-app/src/fleet.rs:294-306 | in place: a new question replaces the search whole, and is queued on exactly the live, undeclined lanes with room; those hosts and no others are waited on |
| FleetShared.Shared.Retire | crates/zest-app/src/fleet.rs:784-803 | in place: every stopped host loses its watcher, listing, offer, lane and place in the search, and its flag is set, in one critical section |
| FleetState.RetireAppends | crates/zest-app/src/fleet.rs:784-803 | retiring hosts one after another is retiring them together |
| FleetState.PostedMore | crates/zest-app/src/fleet.rs:294-306 | asking one more host queues on its lane and changes no other lane |
| FleetPlan.WatcherPlan | crates/zest-app/src/fleet.rs:174-194 | the plan's loop: starts and stops as the plan function says, for any rows and any watching set |
| FleetPlan.StartsExact | crates/zest-app/src/fleet.rs:174-194 | on distinct rows the starts are exactly the routable hosts not watched, each once |
| FleetPlan.PlanReachesRoutable | crates/zest-app/src/fleet.rs:174-194 | applying starts and stops to the watching set gives exactly the routable hosts that are not this machine |
| FleetPlan.MergeDistinct | crates/zest-fleet/src/lib.rs:263-299 | joining the account's hosts to the discovered ones never lists a machine twice and keeps which row is local |
| FleetPlan.SnapshotDistinct | crates/zest-app/src/fleet.rs:1335-1396 | the snapshot lists each machine once, and a row is local exactly when it is the window's own host |
| FleetProtocol.KeepsPublish | crates/zest-app/src/fleet.rs:944-959 | publishing a dialled listing keeps the protocol's invariant, whichever generation publishes |
| FleetProtocol.KeepsHandle | crates/zest-app/src/fleet.rs:1090-1155 | handling any message keeps the protocol's invariant, whichever generation handles it |
| FleetProtocol.KeepsRegister | crates/zest-app/src/fleet.rs:1090-1124 | registering a lane keeps it: a retired watcher registers none |
| FleetProtocol.KeepsLeave | crates/zest-app/src/fleet.rs:1125-1155 | a watcher's exit keeps it, of any generation, at any later time |
| FleetProtocol.KeepsAsk | crates/zest-app/src/fleet.rs:294-306 | asking a question keeps it, whatever is in flight |
| FleetProtocol.KeepsRetire | crates/zest-app/src/fleet.rs:770-803 | carrying out a plan's stops keeps it |
| FleetProtocol.KeepsSpawned | crates/zest-app/src/fleet.rs:808-818 | starting a watcher keeps it |
| FleetProtocol.StepKeepsInv | crates/zest-app/src/fleet.rs:770-1155 | every step of every thread keeps the whole invariant |
| FleetProtocol.ReachableInv | crates/zest-app/src/fleet.rs:770-1155 | the invariant holds in every state of every run, with any number of watchers, generations and interleavings |
| FleetSafety.OnlyTheWatchedAreListed | crates/zest-app/src/fleet.rs:864-959 | for every remote host, a listing, offer or lane exists only while `watchers` holds that host's current flag, unset, and its thread is alive |
| FleetSafety.OneCurrentWatcher | crates/zest-app/src/fleet.rs:770-819 | of all threads ever started for a remote host, the one in `watchers` is the only one whose flag is unset (both directions) |
| FleetSafety.LateStepsWriteNothing | crates/zest-app/src/fleet.rs:864-1155 | a late step of a retired watcher re-inserts nothing; only its exit may still drop its host's marks |
| FleetSafety.LinkedLanesAreCurrent | crates/zest-app/src/fleet.rs:1090-1155 | whoever holds a linked lane is unretired |
| FleetSafety.OutstandingQuestionsAreLive | crates/zest-app/src/fleet.rs:253-306 | whoever is waited on has a live lane, was not declined, and that lane is the one that accepted the current question; every parked answer echoes the current query |
| FleetSafety.PlansAreCarriedOut | crates/zest-app/src/fleet.rs:770-819 | when the supervisor has finished a plan, the watching set is the goal less the hosts no thread could be started for |
| FleetSafety.GoalIsRoutable | crates/zest-app/src/fleet.rs:770-783 | that goal is exactly the routable remote hosts of the snapshot the plan was made from; with nothing to do, they are watched already |
| FleetSafety.MarksAreClearedByExits | crates/zest-app/src/fleet.rs:1145-1155 | what clears a "cannot search" mark, exactly: an exit of some connection to that host |
| FleetSafety.MarkSurvives | crates/zest-app/src/fleet.rs:383-385 | the promise that a mark lasts until the lane is replaced holds of a step if and only if no other connection to that host leaves in it |
| FleetSafety.LateExitClearsAMark | crates/zest-app/src/fleet.rs:1145-1155 | there is a run in which a retired generation's exit clears the mark of a live lane |
| FleetSafety.AnswersStrayExactly | crates/zest-app/src/fleet.rs:253-292 | while the answers are among the hosts asked, a step breaks that if and only if it is an exit, a plan's stop or a refusal of a host that has answered, or an unretired watcher's answer to the query on screen for a host not waited on |
| FleetSafety.AnswersOutliveAsked | crates/zest-app/src/fleet.rs:1145-1155 | it does break: a run that ends with an answer kept and its host no longer waited on |
| FleetSafety.AskingIsAlwaysPossible | crates/zest-app/src/fleet.rs:294-306 | no two hosts ever share a lane, so a question can be asked in every state of every run |
| FleetLatch.StepKeepsInv | crates/zest-app/src/fleet.rs:421-432 | every atomic step keeps: the latch is set exactly while one wakeup is on its way; an announced write unseen is still on its way to being seen |
| FleetLatch.NothingRepeated | crates/zest-app/src/fleet.rs:1207-1213 | at most one wakeup is ever in flight, and none is taken for nothing |
| FleetLatch.NothingLost | crates/zest-app/src/process.rs:729-735 | with the loop idle, nothing queued and no writer part-way, every write that is announced or that an announced one follows has been painted, and, the supervisor waiting unrung, reconciled |
| FleetLatch.PaintedExactly | crates/zest-app/src/fleet.rs:421-432 | of all completed writes, those and no others are sure to have been: for every other there is a run that comes to rest without it |
| FleetLatch.OnItsWay | crates/zest-app/src/fleet.rs:421-432 | an announced write not yet painted is with its writer, in the queue, or already marked |
| FleetNotices.UnannouncedExactly | crates/zest-app/src/fleet.rs:879-1155 | of all the protocol's steps that change what the windows draw, the ones that announce nothing are exactly a first dial begun, a question asked, and the exit of a connection still waited on |
| FleetNotices.ChangeIsDrawn | crates/zest-app/src/fleet.rs:879-1155 | in every run, what the last step changed on the screen is sure to be drawn if and only if it is not one of those three |
| FleetNotices.HangUpIsNotDrawn | crates/zest-app/src/fleet.rs:1142-1152 | there is a run in which a host that was asked hangs up and everything comes to rest with the palette still counting it |
| SessionLatch.StepKeepsInv | crates/zest-app/src/session.rs:312-357 | every atomic step of reader, exit racers and event loop keeps the latch's invariant |
| SessionLatch.RedrawsBetweenTakes | crates/zest-app/src/session.rs:312-314 | between two `take_dirty` calls the latch is claimed at most once; two redraws are posted if and only if one claim was carried over the first take and another made and posted since |
| SessionLatch.TwoRedrawsBetweenTakes | crates/zest-app/src/session.rs:402-405 | there is a run with two redraws posted between two takes |
| SessionLatch.ExitedOnce | crates/zest-app/src/session.rs:326-355 | the exit is reported at most once; exactly once when the winner is through; a racer through without reporting left it to the other |
| SessionLatch.NothingLost | crates/zest-app/src/session.rs:312-331 | with nothing queued, owed or being drawn and the reader past its swap, the last frame shows everything parsed, until the exit |
| AccountLoop.Loop | crates/zest-app/src/fleet.rs:1406-1440 | the loop itself: the listing stored is the account's last word, it ends exactly at the first round whose wait says the bell is gone, and it ends where some run of the transition system does |
| AccountLoop.LoopIsARun | crates/zest-app/src/fleet.rs:1406-1440 | whatever outcomes and waits the loop meets, some run of the transition system has the same fetches and is over exactly when the loop is |
| AccountLoop.StepKeepsInv | crates/zest-app/src/fleet.rs:1406-1440 | every step of the loop, and every poke and hang-up meanwhile, keeps its invariant |
| AccountLoop.StoredIsTheLastWord | crates/zest-app/src/fleet.rs:1415-1434 | in every run the stored listing is that of the last fetch that was not transient, none after a sign-out |
| AccountLoop.SignedOutWaitsForAPoke | crates/zest-app/src/fleet.rs:1420-1430 | signed out, the loop moves only on a token put in the channel after it last stopped waiting, each such move using a poke of its own |
| AccountLoop.PokedDuringTheFetch | crates/zest-app/src/fleet.rs:1420-1430 | there is a run in which the poke that resumes the loop came before the sign-out was learnt |
| AccountLoop.EveryPokeIsServed | crates/zest-app/src/fleet.rs:129-136 | until a fetch begins after it, a poke leaves the loop unable to time out or end, with a step of its own to take and at most three to go |
| AccountLoop.NoPokeOutlivesTheLoop | crates/zest-app/src/fleet.rs:1436-1438 | the loop never ends with a poke unserved |
| LaunchRules.AskedExactly | crates/zest-app/src/main.rs:731-770 | when a launch has asked n times: it may forward, every answer but the last was "nobody", asking again took a lost claim, and n is at most 51 (both directions) |
| LaunchRules.HandOff | crates/zest-app/src/main.rs:731-770 | the block with its bounded loop ends in the move its verdicts call for, having asked only when told to |
| LaunchProtocol.KeepsTold | crates/zest-app/src/instance.rs:298-361 | a verdict heard, or given up on, keeps the launch invariant, whatever the helper thread and the instance do later |
| LaunchProtocol.KeepsParks | crates/zest-app/src/instance.rs:437-475 | parking a request keeps the launch invariant: no request is queued twice |
| LaunchProtocol.KeepsWakes | crates/zest-app/src/instance.rs:466-470 | waking the loop, or finding it gone, keeps the launch invariant |
| LaunchProtocol.KeepsOpensNext | crates/zest-app/src/process.rs:442-476 | opening what was parked keeps the launch invariant: nothing is opened twice |
| LaunchProtocol.KeepsClaims | crates/zest-app/src/instance.rs:415-425 | winning or losing the endpoint keeps the launch invariant |
| LaunchProtocol.StepKeepsInv | crates/zest-app/src/instance.rs:298-475 | every step of every process keeps the launch invariant |
| LaunchProtocol.ReachableInv | crates/zest-app/src/instance.rs:298-475 | the launch invariant holds in every state of every run of any number of processes |
| LaunchSafety.OpenedBySameBuild | crates/zest-app/src/instance.rs:376-397 | a launch that leaves successfully had its request opened by a process whose greeting equals its own |
| LaunchSafety.OkMeansOpened | crates/zest-app/src/process.rs:440-474 | `Ok` is on the wire only once the window or tab exists, however late it is |
| LaunchSafety.EveryLaunchShows | crates/zest-app/src/main.rs:731-770 | every launch that ends unrefused has something opened for it |
| LaunchSafety.KeepsToItself | crates/zest-app/src/instance.rs:186-226 | a probe, a process with its own configuration and one told to be an instance forward nothing in any run; all that is opened for them is their own window |
| LaunchSafety.AtMostOneEach | crates/zest-app/src/main.rs:731-770 | no launch opens two things elsewhere or two of its own; both one of each only when it stopped waiting for an answer |
| LaunchSafety.AWindowTooMany | crates/zest-app/src/instance.rs:298-321 | there is a run in which a launch opens both: its budget elapses while the request is parked |
| LaunchSafety.OneServer | crates/zest-app/src/instance.rs:399-425 | claims being exclusive, whoever serves is the one holder of the endpoint, and has its window |
| EndpointLock.ExclusiveWhileTimely | crates/zest-daemon/src/local.rs:74-111 | at most one process holds the claim in every run in which no server takes the lock file's name away between another process's opening the file and its locking it |
| EndpointLock.ExclusiveExactly | crates/zest-app/src/instance.rs:480-491 | a step after which two may come to hold it, though no other name is taken away at a bad moment, is exactly such a one |
| EndpointLock.TwoHolders | crates/zest-daemon/src/local.rs:221-230 | there is a run of three processes in which two hold the claim at once |
| LaunchSafety.NeverHangs | crates/zest-app/src/instance.rs:18-21 | a launch always has a step of its own to take that waits on nobody |
| LaunchSafety.RemainingShrinks | crates/zest-app/src/main.rs:731-770 | each of a launch's own steps leaves it fewer to take, and nobody else's step adds any |
| LaunchSafety.LaunchIsBounded | crates/zest-app/src/main.rs:740-758 | in every run a launch takes at most 104 steps of its own and hears at most 51 verdicts |
| Utf8.First | crates/zest-app/src/text_field.rs:318-320 | the first character of a well-formed string, whatever reading of it is taken |
| Utf8.Last | crates/zest-app/src/text_field.rs:322-324 | the last character of a well-formed string, found by walking back over continuation bytes |
| Utf8.ValueOfEncoding | crates/zest-app/src/text_field.rs:318-324 | decoding the first bytes of an encoding gives the character and its width (section 3 of RFC 3629) |
| Utf8.TextInjective | crates/zest-app/src/text_field.rs:23-28 | a string has one reading only |
| Utf8.BoundaryIsOffset | crates/zest-app/src/text_field.rs:23-28 | every byte index that is a character boundary is where some character starts, or the end |
| Utf8.OffsetIsBoundary | crates/zest-app/src/text_field.rs:23-28 | every character's byte offset is a character boundary |
| TextFields.StandsExactly | crates/zest-app/src/text_field.rs:23-33 | bytes and two indices stand for a character field exactly when the text is well formed and both indices are boundaries |
| TextFields.StandsForOne | crates/zest-app/src/text_field.rs:23-33 | bytes and indices stand for at most one character field |
| TextFields.TextField.constructor | crates/zest-app/src/text_field.rs:70-74 | a new field holds its text with the caret at the end |
| TextFields.TextField.Set | crates/zest-app/src/text_field.rs:106-110 | replaces the text, caret at the end |
| TextFields.TextField.SelectedText | crates/zest-app/src/text_field.rs:93-103 | the bytes between the two boundaries are the selected characters |
| TextFields.TextField.SelectAll | crates/zest-app/src/text_field.rs:117-120 | selects every character |
| TextFields.TextField.Insert | crates/zest-app/src/text_field.rs:127-132 | types over the selection, in characters |
| TextFields.TextField.TakeSelection | crates/zest-app/src/text_field.rs:135-139 | removes and returns the selected characters |
| TextFields.TextField.Backspace | crates/zest-app/src/text_field.rs:141-150 | is extending one character left and erasing the selection |
| TextFields.TextField.Delete | crates/zest-app/src/text_field.rs:152-159 | is extending one character right and erasing the selection |
| TextFields.TextField.DeleteWordBack | crates/zest-app/src/text_field.rs:161-169 | is extending a word left and erasing the selection |
| TextFields.TextField.DeleteWordForward | crates/zest-app/src/text_field.rs:171-177 | is extending a word right and erasing the selection |
| TextFields.TextField.DeleteToStart | crates/zest-app/src/text_field.rs:179-187 | is extending to the start and erasing the selection |
| TextFields.TextField.MoveCaret | crates/zest-app/src/text_field.rs:192-212 | moves by character or word, collapsing a selection towards the motion |
| TextFields.TextField.Home | crates/zest-app/src/text_field.rs:214-219 | the caret to the start, keeping the anchor when extending |
| TextFields.TextField.End | crates/zest-app/src/text_field.rs:221-226 | the caret to the end, keeping the anchor when extending |
| TextFields.TextField.NextBoundary | crates/zest-app/src/text_field.rs:318-320 | the byte offset of the next character, if any |
| TextFields.TextField.PrevBoundary | crates/zest-app/src/text_field.rs:322-324 | the byte offset of the previous character, if any |
| TextFields.TextField.WordEdgeRight | crates/zest-app/src/text_field.rs:330-346 | the forward loops stop where the reference editor's word motion does |
| TextFields.TextField.WordEdgeLeft | crates/zest-app/src/text_field.rs:347-361 | the backward loops likewise |
| TextFields.TextField.DeleteSelection | crates/zest-app/src/text_field.rs:302-308 | erases the selection and says whether there was one |
| TextFields.TextField.Apply | crates/zest-app/src/text_field.rs:234-299 | every command does to the characters what the reference editor does, hands back the same text, keeps the field valid, and reports a change exactly when the text differs |
| CharField.CutPasteRestores | crates/zest-app/src/text_field.rs:134-139 | cut then paste of what was cut restores the text, for every field |
| CharField.BackspacesUndoTyping | crates/zest-app/src/text_field.rs:127-150 | as many backspaces as characters typed take away exactly those |
| CharField.BackspaceIsLeftThenDelete | crates/zest-app/src/text_field.rs:141-159 | left then delete is backspace if and only if there is a character to the left or no text at all |
| CharField.WordDeletesMeet | crates/zest-app/src/text_field.rs:161-177 | both word deletes take out the stretch between the two word edges, in either order |
| CharField.WordRightStops | crates/zest-app/src/text_field.rs:326-346 | word-right makes progress and stops at the first word end past the caret, or the end |
| CharField.WordLeftStops | crates/zest-app/src/text_field.rs:347-361 | word-left makes progress and stops at the last word start before the caret, or the start |
| CharField.RightThenLeft | crates/zest-app/src/text_field.rs:330-361 | word-right then word-left comes back if and only if from a word start, or the start of a text without words |
| CharField.LeftThenRight | crates/zest-app/src/text_field.rs:330-361 | word-left then word-right comes back if and only if from a word end, or the end of a text without words |
| CharField.WalkReachesTheEnd | crates/zest-app/src/text_field.rs:330-346 | repeated word motion reaches the end in exactly one step more than there are word ends between, and no sooner |
| Motion.Spring.At | crates/zest-app/src/motion.rs:52-54 | a spring at rest where it is put |
| Motion.Spring.Retarget | crates/zest-app/src/motion.rs:72-74 | moves the target and keeps position and speed |
| Motion.Spring.Nudge | crates/zest-app/src/motion.rs:82-84 | moves the value and leaves target and speed |
| Motion.Spring.ClampTo | crates/zest-app/src/motion.rs:100-103 | bounds the value on either side of zero and leaves target and speed |
| Motion.Spring.SnapTo | crates/zest-app/src/motion.rs:111-120 | arrives: on the target with no speed |
| Motion.Spring.Step | crates/zest-app/src/motion.rs:127-180 | the substep loop, the rest test and the stall guard, proved to be one frame of the recurrence |
| Motion.SubstepAdvances | crates/zest-app/src/motion.rs:160-170 | a substep is one step of a second-order linear recurrence in displacement |
| Motion.FramesIntegrate | crates/zest-app/src/motion.rs:127-180 | frames in a row are so many substeps in a row, as long as none came to rest |
| Oscillator.FormStep | crates/zest-app/src/motion.rs:160-163 | a substep takes exactly a square from a quadratic form of displacement and velocity, so the form never grows |
| Oscillator.FormBelow | crates/zest-app/src/motion.rs:160-163 | the form is positive definite in the stable region, with the gap to its edge as the factor |
| Oscillator.EnergyContracts | crates/zest-app/src/motion.rs:160-163 | in the stable region some positive-definite energy contracts by a fixed factor at every substep |
| Oscillator.Drains | crates/zest-app/src/motion.rs:155-164 | in the stable region the energy falls below any positive bound after finitely many substeps |
| Oscillator.KeepsSwinging | crates/zest-app/src/motion.rs:160-163 | outside the region, displaced and let go, it swings from side to side for ever and never by less than a fixed amount |
| Motion.FalseMeansSettled | crates/zest-app/src/motion.rs:170-180 | a frame that reports rest is exactly on target with no speed |
| Motion.StableSettles | crates/zest-app/src/motion.rs:127-180 | with a positive margin, from every state, finitely many frames end in rest |
| Motion.UnstableRunsAway | crates/zest-app/src/motion.rs:127-180 | without a positive margin, no spring made at one value and sent to another far enough from it ever comes to rest |
| Motion.SettlesExactly | crates/zest-app/src/motion.rs:127-180 | a spring settles from every state, and equally from every standing start, if and only if the frame is a stall or 4 - 4ζωh - (ωh)² > 0, for every frame time and every pair of settings after clamping |
| Motion.OrdinaryResponsesSettle | crates/zest-app/src/motion.rs:127-180 | every response of 0.06 s or more, the defaults among them, with any damping in range, settles at every frame time |
| Motion.FastCornerRunsAway | crates/zest-app/src/motion.rs:147-151 | at a response of 0.01 s, inside the clamped range, a spring does not always settle, not even from a standing start |
| Closing.AscendingRemoves | crates/zest-app/src/process.rs:646-649 | removing by an ascending list of indices, last first, removes exactly what the indices named |
| Closing.RemovedAtLeast | crates/zest-app/src/process.rs:646-649 | removing by any list takes away at least the indices named, and exactly them only in ascending order |
| Closing.RemovesWhatIsMeant | crates/zest-app/src/process.rs:646-649 | removing by any duplicate-free list removes what was meant if and only if it is ascending |
| WindowDrain.ClosesFit | crates/zest-app/src/process.rs:586-650 | no close in the drain falls off the list, whatever was asked |
| WindowDrain.OrderIsAscending | crates/zest-app/src/process.rs:591-640 | the close list is ascending if and only if no window emptied by a tear-off comes before one that asked to close; it lists exactly those windows, each once |
| WindowDrain.DrainClosesWhatAsked | crates/zest-app/src/process.rs:586-650 | the drain closes exactly the windows that asked or were emptied, and none it just opened, if and only if that order holds |
| WindowDrain.DrainKeepsTabs | crates/zest-app/src/process.rs:586-650 | in order it loses no tab and doubles none: what is open afterwards and what closing windows detached is what was open before, and one shell per window asked for |
| WindowDrain.TornTabsMove | crates/zest-app/src/app/mod.rs:2696-2710 | every tab torn off is the one tab of a new window the drain leaves open |
| WindowDrain.OneWindowIsInOrder | crates/zest-app/src/process.rs:741-749 | where no window but the one tearing off asks to close, the drain does what was asked |
| WindowDrain.TornTabIsLost | crates/zest-app/src/process.rs:586-650 | out of order the wrong window closes and the torn-off tab is lost: two windows suffice |
| WindowDrain.DrainKeepsFocus | crates/zest-app/src/process.rs:564-583 | the focus always names an open window afterwards |
| WindowProcess.Process.CloseWindow | crates/zest-app/src/process.rs:564-583 | in place: one window out, the focus moved if it was there, the loop told to exit when none is left |
| WindowProcess.Process.OpenWindow | crates/zest-app/src/process.rs:545-552 | in place: a window more, focused if none was |
| WindowProcess.Process.TakeRequests | crates/zest-app/src/process.rs:591-603 | in place: every window's requests taken once, listed in order |
| WindowProcess.Process.TearAll | crates/zest-app/src/process.rs:618-627 | in place: every tab asked for and present is taken out, and windows it empties are listed to close once |
| WindowProcess.Process.DrainRequests | crates/zest-app/src/process.rs:586-650 | in place: the whole drain, equal to the function the results above are about |
| PictureCache.EveryGetIsFresh | crates/zest-app/src/background.rs:58-88 | after any run of gets, edits and reloads, an answer shows what the first ask of the generation found; the first ask shows what an uncached load made during the call would; as long as no two paths asked for in the run have one id |
| PictureCache.FreshExactly | crates/zest-app/src/background.rs:58-104 | on a set of paths every run is fresh, whatever the files hold, if and only if no two of them have one id |
| PictureCache.NoAnswerIsEvicted | crates/zest-app/src/background.rs:58-88 | under the same condition, no answer names a picture that was evicted, or gives it another size |
| PictureCache.NothingLingers | crates/zest-app/src/background.rs:90-104 | under the same condition, every entry is of this generation or the last; a reload leaves in the store exactly the pictures asked for since the one before |
| PictureCache.CollisionShowsTheOther | crates/zest-app/src/background.rs:150-159 | for any two paths with one id there is a run after which an ask for the first shows the second one's picture |
| Backgrounds.Pictures.Get | crates/zest-app/src/background.rs:58-88 | in place: equal to the function `EveryGetIsFresh` is about, with the same answer |
| Backgrounds.Pictures.Invalidate | crates/zest-app/src/background.rs:97-103 | in place: equal to the function `NothingLingers` is about |
| Backgrounds.ImageStore.Upload | crates/zest-render-wgpu/src/image.rs:170-233 | replaces the picture under an id; refuses one whose bytes do not fill its size |
| Backgrounds.ImageStore.Retain | crates/zest-render-wgpu/src/image.rs:239-241 | keeps exactly the ids given |
| FoldView.RangesHide | crates/zest-app/src/block_actions.rs:36-39 | the half-open ranges hide exactly the blocks' inclusive output rows |
| FoldView.FoldRowMap | crates/zest-app/src/block_actions.rs:53-94 | the walk, turn and pad give the fold view, or nothing when nothing folded has output |
| FoldView.ViewShows | crates/zest-app/src/block_actions.rs:41-52 | one row per screen row: the last visible stored rows that fit, in order, then filler; nothing visible is left out below the first, nor at all while there is filler |
| FoldView.ViewIsTheOnlyOne | crates/zest-app/src/block_actions.rs:41-52 | no other list of rows shows that |
| LauncherMenu.KeysTellApart | crates/zest-app/src/launcher.rs:367-418 | two machines never share a group, whatever they are called |
| LauncherMenu.CommandIsItsMachines | crates/zest-app/src/launcher.rs:162-184 | the command a row shows is its profile's own; a missing one falls back on this machine's exactly where the row may run here |
| LauncherMenu.KeyTransitive | crates/zest-app/src/launcher.rs:84-93 | the order of group keys is transitive |
| LauncherMenu.KeyTrichotomy | crates/zest-app/src/launcher.rs:84-93 | the order of group keys is total and irreflexive |
| LauncherMenu.AddKeeps | crates/zest-app/src/launcher.rs:371-418 | filing an entry keeps the groups in order and none empty, and touches no other group |
| LauncherMenu.FleetTimes | crates/zest-app/src/launcher.rs:156-214 | how often each target is filed, over every configuration and fleet |
| LauncherMenu.FleetNames | crates/zest-app/src/launcher.rs:194-214 | which names a host's group has |
| LauncherMenu.ArrangedKeeps | crates/zest-app/src/launcher.rs:147-151 | putting the reserved profile first loses and doubles none |
| LauncherRows.GroupsInOrder | crates/zest-app/src/launcher.rs:216-217 | groups come in key order and none is empty |
| LauncherRows.EachLocalOnce | crates/zest-app/src/launcher.rs:156-192 | each local profile launches from exactly one row |
| LauncherRows.EachPublishedOnce | crates/zest-app/src/launcher.rs:194-214 | each published profile from exactly one, unless a local profile of its name is pinned to that host: then from none |
| LauncherRows.RowsSitUnderTheirMachine | crates/zest-app/src/launcher.rs:276-311 | each launch row is under the header of the machine that will run it; without headers every row runs here |
| LauncherRows.OneDefault | crates/zest-app/src/launcher.rs:276-311 | exactly one row is the default, and it is the first that launches |
| LauncherRows.DigitsAgree | crates/zest-app/src/launcher.rs:447-464 | the digit drawn on a row is the digit that runs it, for every digit, and no row has another number |
| LauncherRows.DownThenUp | crates/zest-app/src/launcher.rs:466-477 | stepping down then up comes back, and never rests on a line that does nothing |
| LauncherBuild.BuildGroups | crates/zest-app/src/launcher.rs:154-214 | the two filling loops build the groups the results are about |
| LauncherBuild.BuildRows | crates/zest-app/src/launcher.rs:139-327 | the flattening pass builds two parallel lists, equal to the rows and the actions of those lines |
| Scanning.Jumps | xtask/src/main.rs:962-983 | a scan that jumps passes over everything up to where it lands |
| Scanning.PassedOver | xtask/src/main.rs:962-983 | what is passed over is passed over by a jump from a place landed on |
| SourceScan.ItemEnd | xtask/src/main.rs:1023-1048 | the end of an item is past its start and within the file |
| SourceScan.EndOfItem | xtask/src/main.rs:1023-1048 | the three loops find the item's end |
| SourceScan.ScanSpawns | xtask/src/main.rs:962-983 | the text is cut into lines and the loop collects the spawns of shipped ones |
| SourceScan.SpawnsExactly | xtask/src/main.rs:962-983 | in order, a line is reported if and only if it spawns, is no comment, and is in no test-only item |
| SourceScan.SkippedByATest | xtask/src/main.rs:962-983 | what is not shipped is inside a test-only item that is itself outside every earlier one |
| SourceScan.FunctionsIn | xtask/src/main.rs:896-942 | the loop with its inner read-forward collects the definitions |
| SourceScan.FindBody | xtask/src/main.rs:907-931 | a head is read to its body, or to the end of a declaration |
| SourceScan.EndsAtItsBrace | xtask/src/main.rs:932-938 | a definition ends at the first line after its body opens that closes a brace in its column |
| SourceScan.SpansAreDisjoint | xtask/src/main.rs:896-942 | the spans reported measure their definitions, never overlap and come in order |
| SourceScan.ReportedExactly | xtask/src/main.rs:896-942 | a line is reported if and only if it starts a definition that a later line closes in its column, opens no test-only item, and is in no skipped test-only item and no earlier reported definition |
| SourceScan.LandsExactly | xtask/src/main.rs:896-942 | the scan lands on a line if and only if no skipped test-only item and no reported definition takes it in |
| SourceScan.OneLinerIsMissed | xtask/src/main.rs:933-941 | a file of one line that defines a function is reported empty, though the definition is in no test-only item and no other definition |
| SourceScan.DeclarationConsumesNothing | xtask/src/main.rs:925-931 | a declaration consumes nothing |
| SourceScan.OneLinerTakesInItsNeighbour | xtask/src/main.rs:882-895 | a definition that opens and closes on one line takes in what is defined on the next |
| ProfileNames.DecimalInjective | crates/zest-app/src/profiles_ui.rs:602-618 | decimal printing is injective |
| ProfileNames.NewProfileName | crates/zest-app/src/profiles_ui.rs:602-608 | the free name with the smallest number, found within one try more than there are names |
| ProfileNames.CopyName | crates/zest-app/src/profiles_ui.rs:611-618 | a copy's name: the free one with the smallest number from 2, within one try more than there are names |
| PasteEscape.EscapeForPaste | crates/zest-app/src/paste_image.rs:287-310 | refuses exactly the paths with a control character, and otherwise escapes |
| PasteEscape.RoundTrip | crates/zest-app/src/paste_image.rs:470-483 | un-escaping gives the text back, for every text |
| PasteEscape.GuardedExactly | crates/zest-app/src/paste_image.rs:296-309 | what escaping yields is exactly the strings in which a backslash stands before every character that needs one and no other |
| PasteEscape.EscapedIsGuarded | crates/zest-app/src/paste_image.rs:296-309 | in every escaped path, each character that needs a backslash has one of its own and no other character has one |
| PasteEscape.EscapeIsInjective | crates/zest-app/src/paste_image.rs:287-310 | escaping is injective |
| EditorLines.DisplayCols | crates/zest-app/src/editor.rs:253-260 | the columns of a line, tabs to the next stop |
| EditorLines.ExpandTabs | crates/zest-app/src/editor.rs:273-291 | the loop expands each tab to its stop |
| EditorLines.ExpandKeepsColumns | crates/zest-app/src/editor.rs:253-291 | expanding leaves no tab and keeps the columns, for every width function that gives a space one |
| EditorLines.ExpandKeepsPlaces | crates/zest-app/src/editor.rs:273-291 | every character of the line but tabs is drawn, in order, in the column it was counted at; a tab as spaces to its stop; and nothing else is drawn |
| EditorLines.LinesRejoin | crates/zest-app/src/editor.rs:124-146 | the lines rejoined are the text, up to carriage returns that ended lines and the newline that ended the file |
| EditorLines.EditorPane.Apply | crates/zest-app/src/editor.rs:110-150 | in place: an error changes only the state; an answer sets every field, read-only when truncated, no lines when binary |

## Left out

- Sockets, TLS, relays, keychains, enrolment and HTTP: a dial, a read or a fetch is an outcome.
- The daemon's session protocol and the framing of messages: a message arrives decoded or not.
- The grid and parser, beyond a grid's stored line ids and its viewport: the fold view needs no more.
- Probing, round-trip times and pairing in fleet.rs: they write fields no result here reads.
- Backoff lengths, jitter and poll intervals: only their order is kept, as choices.
- Opening, persisting and restoring windows: a window opened has one tab and a fresh id.
- `command_for` and the clipboard chords of the text field: finite tables.
- Accents, sub-labels and chips of the launcher's rows: they decide nothing.
- `build_profile_rows`, `ordered_indices` and `section_of` in profiles_ui.rs, and `prune` in paste_image.rs: easier than what is here.
- `looks_like_an_image` and decoding: a file's picture is a function of its stamp.
- Starvation freedom of the fair mutex: it rests on the mutex underneath.
- Motion.SettlesExactly: over the reals, for a frame time and settings that do not change during the run.
- SessionLatch.NothingLost: until the exit, when the wakeup that follows is `Exited` and not `Redraw`.
- PictureCache.EveryGetIsFresh: under the assumption about stamps above, and for runs whose paths have ids of their own.
- LaunchSafety.EveryLaunchShows: not for a launch refused for giving `--attach` with `--no-daemon`, which leaves with code 2 after the block modelled.
- LaunchSafety.OneServer: takes exclusive claims for granted; EndpointLock has the lock file on Unix, apart from the rest of the protocol.
- LauncherRows.DigitsAgree: for the digits a key can name; past nine `digit_action_index` still counts rows no digit is drawn on.
- SourceScan.SpawnsExactly: tells shipped lines by indentation, as the scanner does, so what the compiler would call test-only is not compared.
- TextFields.TextField.WordBoundary: steps by Unicode scalar value, as the source does, not by grapheme cluster.

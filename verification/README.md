# Cybex desktop protocols and layout: a verified model

A Dafny model of the parts of this repository whose guarantees span several
functions or a whole run. `dafny verify dfyconfig.toml` checks all of it.

| module | models |
|---|---|
| `Stream`, `StreamReader` | the resumable event-stream reader of the Hermes bridge: line parser, dispatcher, handlers, reconnect loop |
| `Session`, `SessionLocks` | the bridge's cookie session: every interleaving of requests, probes, sign-ins and sign-outs, and the object whose lock sections are the steps |
| `Refresh` | the single-flight, spaced refresh of the conversation list |
| `Revisions`, `InboxRows`, `Inbox`, `InboxRuns`, `InboxMemory`, `InboxOutcomes`, `InboxMethods` | the GitHub Inbox: revisions, pages, the state machine, its runs, what its sources remember, what each step does to each entity, and the key-by-key programs |
| `Display`, `Arrangement`, `DisplayMoves` | placing, re-attaching, moving and validating displays |
| `Columns` | the balanced shortcut columns |
| `ManagedFile`, `Publish` | the managed-file ledger and the no-replace ISO publication, with crashes and competitors |
| `ListSync`, `FitBar`, `Countdown` | keyed list updates, the bar's fit, reminder labels |
| `Decimal`, `Terse`, `Ethernet`, `EthernetPrint` | nmcli's terse text, parsed and printed |
| `Common` | shared vocabulary |

What is taken as given: SHA-256 is injective, so a content stands for its
digest; display keys, titles and URLs are opaque; time and pixels are integers
or reals without rounding; strings are sequences of code units; JSON decoding,
the locale's order and JavaScript's key enumeration order are parameters, and the
results hold for all of them. Column weights are doubled to stay integers.
Interleaving protocols are state machines whose steps are what the source does
between two awaits, lock sections or file-system calls; a run is any sequence of
them.

## What the code does that its comments do not say

- The reader dispatches a block that a clean end cuts off, which section 9.2.6 of
  the WHATWG HTML standard discards, with its last line perhaps cut as well; a
  token can then repeat or get lost (`StreamReader.PartialBlockRepeats`,
  `StreamReader.PartialBlockSkips`, `StreamReader.CutIdRepeats`;
  `Stream.CleanEndExactly` says exactly when a clean end does no harm).
- A completion is published before the conversation is saved and the fence is set
  after it. A turn is therefore completed twice when an error or a cancellation
  follows `done`, and also when the save fails and `stream_end` or the server's
  status comes next (`StreamReader.DoneThenError`, `StreamReader.DoneThenStreamEnd`,
  `StreamReader.FailedSaveThenStatus`; `StreamReader.CompletedAtMostOnce` is exact).
- A session that expires can keep its cookies: in the file, when a probe finds it
  expired after a response emptied the jar, or when the file cannot be written, and
  in jar and file, when a sign-in to the same origin is rejected
  (`Session.SavedCookieOutlivesExpiry`, `Session.UnsavedExpiryKeepsFile`,
  `Session.RejectedSignInKeepsCookies`; `Session.ExpiryClearsExactly` is exact).
- A sign-in makes the session persistent before it saves it, so a persistent session
  can be without its file (`Session.SignInNotSaved`; `Session.FileNamesOrigin` is
  exact).
- The ledger's promise that an interrupted publication is recoverable has two
  exceptions, both treated as a deletion by the user
  (`ManagedFile.CrashRecovers` is exact).
- A publisher that crashes between the two links, or cannot undo the first, blocks
  the name (`Publish.NameBlocked`, `Publish.OrphanBlocks`; `Publish.AloneExactly` is
  exact).
- An exception other than an RPC fault in the refresh worker can strand an
  invalidation or crowd two refreshes (`Refresh.AbortStrands`,
  `Refresh.AbortCrowds`; `Refresh.AbortKeepsExactly` is exact).
- `revisionCompare` is a total order on numeric heads, and one on all other heads,
  but circular where the two mix (`Revisions.CircularExactly`); a page then has no
  newest row, and which one is kept depends on its order
  (`InboxRows.OrderFreeExactly`).
- A settled row that the history dropped can come back after a page with which its
  source has more than 400 keys to remember (`InboxMemory.ForgottenComesBack`;
  `InboxMemory.RemembersExactly` is exact).
- The edit script of `listSyncOps` is greedy and not always minimal: from `a b c` to
  `c a b` it removes and inserts two rows although one would do
  (`ListSync.RotationIsNotMinimal`). It is minimal exactly if it keeps as many rows
  as the longest common subsequence has, and keeps every surviving row exactly if
  the keys that both lists hold are in the same order (`ListSync.ListSyncOps`).

## Model

| member | source | states |
|---|---|---|
| `Columns.ColumnsFor` | roles/desktop/files/quickshell/Common/KeybindHelpers.js:281-322 | the columns concatenate to the input, none is empty for a non-empty list, and no contiguous split into at most that many columns, empty ones allowed, has a lighter heaviest column |
| `Columns.ColumnCount` | roles/desktop/files/quickshell/Common/KeybindHelpers.js:283 | between one and the number of groups, and one for an empty list |
| `Columns.Prefixes` | roles/desktop/files/quickshell/Common/KeybindHelpers.js:287-289 | entry `i` is the total weight of the first `i` groups |
| `Columns.FillRow` | roles/desktop/files/quickshell/Common/KeybindHelpers.js:303-313 | a table row holds the optimum for each prefix length and cuts that reach it |
| `Columns.WalkBack` | roles/desktop/files/quickshell/Common/KeybindHelpers.js:314-321 | walking the cuts backwards yields a split that reaches the optimum |
| `Columns.BestIsLowerBound` | roles/desktop/files/quickshell/Common/KeybindHelpers.js:290-313 | a table cell is a lower bound for every split into at most that many columns |
| `Columns.SpreadBound` | roles/desktop/files/quickshell/Common/KeybindHelpers.js:304-312 | spreading early groups over more columns never costs more, so exactly `k` columns lose nothing against at most `k` |
| `Columns.BestIsFinite` | roles/desktop/files/quickshell/Common/KeybindHelpers.js:304-312 | every cell the walk visits was filled |
| `Columns.WeightMeans` | roles/desktop/files/quickshell/Common/KeybindHelpers.js:281-289 | a group is as heavy as its rows and a title of one row and a half |
| `Display.PlaceRect` | roles/desktop/files/quickshell/Common/DisplayHelpers.js:290-330 | the answer is the first of the nearest usable candidates, on the preferred side if that has one; for positive sizes it overlaps none and shares at least 64 pixels of edge, or the whole shorter edge, with one |
| `Display.PlacementFits` | roles/desktop/files/quickshell/Common/DisplayHelpers.js:290-330 | for any positive rectangles, overlapping or not, a usable candidate exists on the side asked for, so the fallback position is never taken |
| `Display.SideHasRoom` | roles/desktop/files/quickshell/Common/DisplayHelpers.js:293-314 | every one of the four sides has a usable candidate |
| `Display.OutermostFits` | roles/desktop/files/quickshell/Common/DisplayHelpers.js:296-309 | the clamped and snapped position beside the outermost display touches it and overlaps nothing |
| `Display.CandidateBorders` | roles/desktop/files/quickshell/Common/DisplayHelpers.js:294-304 | every candidate shares at least 64 pixels of edge, or the whole shorter edge, with the display it was made for |
| `Display.BesideLinedUp` | roles/desktop/files/quickshell/Common/DisplayHelpers.js:276-304 | along the shared edge a candidate stays within 48 pixels of the nearest position that shares enough of it, snaps to the neighbour's start, else its end, when within 48 pixels of it, and otherwise does not move |
| `Display.ZeroDistanceWins` | roles/desktop/files/quickshell/Common/DisplayHelpers.js:315-327 | a usable candidate that is already where the rectangle is, is the answer |
| `Display.Nearest` | roles/desktop/files/quickshell/Common/DisplayHelpers.js:315-325 | the first index at minimal distance |
| `Arrangement.Relayout` | roles/desktop/files/quickshell/Common/DisplayHelpers.js:380-416 | for unique keys and positive sizes: no two displays overlap, the touching graph is connected, the corner is 0x0, displays that occupy no space are untouched, only positions change, the anchor is where it was, moved by one offset, and a display that has to move, when it faced the anchor across an edge before, is attached on that very side: edge to edge with a display already done, in the nearest usable place of that side |
| `Arrangement.RelayoutGood` | roles/desktop/files/quickshell/Common/DisplayHelpers.js:380-416 | the same for every layout the incremental re-attachment can produce |
| `Arrangement.AttachAll` | roles/desktop/files/quickshell/Common/DisplayHelpers.js:395-407 | each display keeps its place if it fits the ones already done, and otherwise takes the position `placeRect` gives it |
| `Arrangement.AttachedIsGood` | roles/desktop/files/quickshell/Common/DisplayHelpers.js:395-407 | attaching one display after another keeps the whole layout apart and connected |
| `Arrangement.AttachedRearranges` | roles/desktop/files/quickshell/Common/DisplayHelpers.js:382-414 | re-attaching neither drops, duplicates nor resizes a display |
| `Arrangement.WriteBackRects` | roles/desktop/files/quickshell/Common/DisplayHelpers.js:408-414 | writing positions back by key gives exactly the re-attached rectangles and leaves the other drafts alone |
| `Arrangement.NearestFirstOrdered` | roles/desktop/files/quickshell/Common/DisplayHelpers.js:390-394 | the displays are visited by distance from the anchor, then by key |
| `Arrangement.BeforeMeans` | roles/desktop/files/quickshell/Common/DisplayHelpers.js:390-394 | nearer top-left corners come first, equally near ones by key, and distinct keys are never tied |
| `Arrangement.SideOfFacing` | roles/desktop/files/quickshell/Common/DisplayHelpers.js:334-342 | a display that faces the anchor across an edge is judged to be on that side |
| `Arrangement.TwoKeepSide` | roles/desktop/files/quickshell/Common/DisplayHelpers.js:376-416 | of two displays, one that no longer fits ends up edge to edge with the changed one, on the side on which it faced it |
| `Arrangement.AttachedKeepsSides` | roles/desktop/files/quickshell/Common/DisplayHelpers.js:395-407 | in every incremental layout each display that has to move keeps the side on which it faced the anchor, and those that fit stay |
| `Arrangement.SideOfMeans` | roles/desktop/files/quickshell/Common/DisplayHelpers.js:332-342 | a display that faces none is on the horizontal side unless the vertical distance of the centres is larger in relation to the summed extents; equal centres count as right or down |
| `Arrangement.NormalizeShifts` | roles/desktop/files/quickshell/Common/DisplayHelpers.js:345-359 | normalising is one common translation of the placed displays to the origin |
| `Arrangement.ShiftKeepsLayout` | roles/desktop/files/quickshell/Common/DisplayHelpers.js:345-359 | a translation keeps non-overlap and connectivity |
| `Arrangement.AnchorIndex` | roles/desktop/files/quickshell/Common/DisplayHelpers.js:383 | the first display with the key, else the first display |
| `Arrangement.SpaceIsTaken` | roles/desktop/files/quickshell/Common/DisplayHelpers.js:247-257 | exactly the displays that are on and mirror no other occupy space |
| `DisplayMoves.MoveDisplay` | roles/desktop/files/quickshell/Common/DisplayHelpers.js:362-374 | an unknown or unplaced key changes nothing; otherwise the display goes where `placeRect` says, shares an edge with the rest, covers none of it, and the rest moves by one common offset |
| `DisplayMoves.Nudge` | roles/desktop/files/quickshell/Common/DisplayHelpers.js:421-446 | the display lands edge to edge with another one on the side asked for, as near as any usable place of that side to the place aimed at: beside the first outermost display with tops in line, or above or below it with centres in line to the pixel; left and right land exactly there |
| `DisplayMoves.FlushIsCandidate` | roles/desktop/files/quickshell/Common/DisplayHelpers.js:438-445 | the left and right targets are usable candidates as they stand |
| `DisplayMoves.EdgeDisplay` | roles/desktop/files/quickshell/Common/DisplayHelpers.js:427-435 | the first display that no other passes on that side |
| `DisplayMoves.LandsOnSide` | roles/desktop/files/quickshell/Common/DisplayHelpers.js:305-327 | a display that is placed with a preferred side ends up edge to edge with another one on that side |
| `DisplayMoves.Validate` | roles/desktop/files/quickshell/Common/DisplayHelpers.js:457-484 | each verdict exactly: no displays, all off, the first display whose mirror is missing, itself, off or a mirror, nothing shown, an overlap, or accepted when some display is on, every mirror is an enabled other display that mirrors none, something is shown and no two rectangles overlap |
| `DisplayMoves.MirrorJudged` | roles/desktop/files/quickshell/Common/DisplayHelpers.js:462-475 | a mirror passes exactly if its first display of that key is another one, is on and mirrors none; otherwise the complaint is the first of these that fails |
| `Arrangement.SeparatedApart` | roles/desktop/files/quickshell/Common/DisplayHelpers.js:478-482 | with unique keys a separated layout passes the pairwise overlap check, so a relaid one does |
| `Stream.ReadFrames` | roles/desktop/files/hermes-menubar-bridge/hermes_bridge.py:5393-5638 | any delivery, cut by an error at any line or ended cleanly anywhere it does no harm, advances the reader over whole journal events, each once and in order, and over every event that arrived whole unless one cannot be decoded, closes the stream or fails to save, or a block is too large |
| `Stream.CleanEndExactly` | roles/desktop/files/hermes-menubar-bridge/hermes_bridge.py:5596-5602 | a clean end inside a block, between two lines or within one, leaves the reader at a prefix of the journal no shorter than before if and only if the part raises before anything changes, has no id or the cursor's and nothing to do, or has the id of an event ahead and does what the events up to it do |
| `Stream.WholeBlock` | roles/desktop/files/hermes-menubar-bridge/hermes_bridge.py:5596-5629 | a complete block, closed by any blank line, is dispatched as the one event it parses to |
| `Stream.CutBlock` | roles/desktop/files/hermes-menubar-bridge/hermes_bridge.py:5596-5630 | a block cut by a transport error leaves the state untouched |
| `Stream.DispatchShape` | roles/desktop/files/hermes-menubar-bridge/hermes_bridge.py:5564-5594 | undecodable data raises before anything changes, a failing save raises after everything but the fence, and blocks without id and data do nothing |
| `Stream.RenderParses` | roles/desktop/files/hermes-menubar-bridge/hermes_bridge.py:5605-5629 | for every event within the limits, the parser undoes the wire format |
| `Stream.NameLimit` | roles/desktop/files/hermes-menubar-bridge/hermes_bridge.py:5621-5622 | event names are cut at 256 characters, and an empty one means `message` |
| `Stream.IdLimit` | roles/desktop/files/hermes-menubar-bridge/hermes_bridge.py:5628-5629 | ids are cut at 1024 characters, and one with a NUL is ignored |
| `Stream.DataLimit` | roles/desktop/files/hermes-menubar-bridge/hermes_bridge.py:5623-5627 | a data line is refused exactly when the event then holds more than the limit |
| `Stream.SkippedLines` | roles/desktop/files/hermes-menubar-bridge/hermes_bridge.py:5614-5629 | comments and unknown fields change nothing |
| `Stream.JoinInjective` | roles/desktop/files/hermes-menubar-bridge/hermes_bridge.py:5573 | joined data lines can be told apart again |
| `Stream.KindOfVariant` | roles/desktop/files/hermes-menubar-bridge/hermes_bridge.py:5679 | case, dashes and surrounding white space do not change which event a name means |
| `StreamReader.ReplayText` | roles/desktop/files/hermes-menubar-bridge/hermes_bridge.py:5579-5588 | the text is the capped concatenation of a journal prefix and the cursor names its last event |
| `StreamReader.AppendCapped` | roles/desktop/files/hermes-menubar-bridge/hermes_bridge.py:5632-5638 | appending under the cap equals capping the concatenation |
| `StreamReader.EventAdds` | roles/desktop/files/hermes-menubar-bridge/hermes_bridge.py:5685-5716 | a token adds its text, an interim message its text unless that was streamed already, and no other event adds anything |
| `StreamReader.Synonyms` | roles/desktop/files/hermes-menubar-bridge/hermes_bridge.py:5685-5701 | the other names of the same events |
| `StreamReader.OnlySavesFail` | roles/desktop/files/hermes-menubar-bridge/hermes_bridge.py:5911-5975 | only an event that saves can fail, and it then neither closes the stream nor sets the fence |
| `StreamReader.PublishedCount` | roles/desktop/files/hermes-menubar-bridge/hermes_bridge.py:5911-5975 | nothing is published exactly while no event of the prefix published, and at most one completion exactly while no two did |
| `StreamReader.FenceCrossed` | roles/desktop/files/hermes-menubar-bridge/hermes_bridge.py:5911-5929 | the fence is crossed exactly when some `done` was handled to its end |
| `StreamReader.PublishedText` | roles/desktop/files/hermes-menubar-bridge/hermes_bridge.py:6018-6043 | every published completion carries the capped text of a journal prefix |
| `StreamReader.CompletedAtMostOnce` | roles/desktop/files/hermes-menubar-bridge/hermes_bridge.py:5493-5503 | a run is completed at most once if and only if no completing event is followed by an error, a cancellation, or a `done`, `stream_end` or status that finds no `done` handled to its end |
| `StreamReader.WithoutFaults` | roles/desktop/files/hermes-menubar-bridge/hermes_bridge.py:5911-5975 | where every save succeeds, if and only if no error or cancellation follows `done` |
| `StreamReader.CompletedOnce` | roles/desktop/files/hermes-menubar-bridge/hermes_bridge.py:5911-5975 | a turn read to its closing event is completed, and exactly once under the same condition |
| `StreamReader.DoneThenStreamEnd` | roles/desktop/files/hermes-menubar-bridge/hermes_bridge.py:5918-5975 | the save fails after `done` published: `stream_end` publishes again |
| `StreamReader.FailedSaveThenStatus` | roles/desktop/files/hermes-menubar-bridge/hermes_bridge.py:5493-5503 | any completing event whose save fails is completed again by the status request |
| `StreamReader.DoneThenError` | roles/desktop/files/hermes-menubar-bridge/hermes_bridge.py:5942-5967 | an error after `done` completes again |
| `StreamReader.PartialBlockRepeats` | roles/desktop/files/hermes-menubar-bridge/hermes_bridge.py:5600-5602 | a clean end before the id line: the token is taken, and again after the reconnect |
| `StreamReader.PartialBlockSkips` | roles/desktop/files/hermes-menubar-bridge/hermes_bridge.py:5564-5572 | a clean end after the id line: the cursor passes a token that was never taken |
| `StreamReader.CutIdRepeats` | roles/desktop/files/hermes-menubar-bridge/hermes_bridge.py:5596-5602 | a clean end inside an id line: the token is taken, and the cursor names the event before it |
| `StreamReader.AfterCursor` | roles/desktop/files/hermes-menubar-bridge/hermes_bridge.py:5405-5408 | with unique ids, replaying after the cursor resumes at the next event |
| `StreamReader.RemoteStream.AppendText` | roles/desktop/files/hermes-menubar-bridge/hermes_bridge.py:5632-5638 | appends at most what the cap leaves |
| `StreamReader.RemoteStream.HandleEvent` | roles/desktop/files/hermes-menubar-bridge/hermes_bridge.py:5685-5975 | what each kind of event does to the text, the fence and the published completions, whether its save fails in between, and whether it ends the stream |
| `StreamReader.RemoteStream.DispatchEvent` | roles/desktop/files/hermes-menubar-bridge/hermes_bridge.py:5564-5594 | the object changes as the dispatch function says |
| `StreamReader.RemoteStream.Consume` | roles/desktop/files/hermes-menubar-bridge/hermes_bridge.py:5549-5630 | the read loop computes the line-by-line reading function |
| `StreamReader.RemoteStream.Follow` | roles/desktop/files/hermes-menubar-bridge/hermes_bridge.py:5393-5535 | after any number of reconnects the state is that of a prefix of the journal, on which every connection advanced the reader over all events that arrived whole unless one halted it; the attachment ends exactly by a closing event, a sign-in demand, a status reply that is not active, eight connections in a row without an event while the status is unknown, or its last attempt; the status request settles the turn exactly if that reply found the fence uncrossed; and a completion is published at most once exactly under the condition of `CompletedAtMostOnce` |
| `StreamReader.ActiveIsFollowed` | roles/desktop/files/hermes-menubar-bridge/hermes_bridge.py:5493-5535 | while the server says the run is active and asks for no sign-in, only a closing event or the last attempt ends the attachment |
| `StreamReader.OpenedAdvances` | roles/desktop/files/hermes-menubar-bridge/hermes_bridge.py:5393-5438 | whatever the server delivers after the cursor takes the reader to a later prefix, over every event that arrives whole unless one halts it |
| `Session.RunKeeps` | roles/desktop/files/hermes-menubar-bridge/hermes_bridge.py:856-1051 | in every interleaving, with any write failing: the source and the origin agree, nothing is saved for a configured origin, jars are not shared, and an operation on the session's jar is one on its origin |
| `Session.StepKeeps` | roles/desktop/files/hermes-menubar-bridge/hermes_bridge.py:856-890 | every lock section keeps that, whether or not it raises |
| `Session.SnapshotIsCurrent` | roles/desktop/files/hermes-menubar-bridge/hermes_bridge.py:856-869 | requests, sign-outs and probes of the current origin begin on the current url and jar, a probe of another origin on an empty jar of its own, and without an origin nothing begins |
| `Session.ResponseArrives` | roles/desktop/files/hermes-menubar-bridge/hermes_bridge.py:1280-1286 | a response reaches the jar of its own operation and no other |
| `Session.SignedIn` | roles/desktop/files/hermes-menubar-bridge/hermes_bridge.py:997-1005 | a completed sign-in makes its own origin and jar the session, with every cookie it obtained, and saves those that are kept unless the file cannot be written |
| `Session.OwnJarOverRun` | roles/desktop/files/hermes-menubar-bridge/hermes_bridge.py:997-1005 | nothing that happens meanwhile touches the jar of a sign-in |
| `Session.CredentialReachesRequests` | roles/desktop/files/hermes-menubar-bridge/hermes_bridge.py:997-1005 | over every interleaving the cookies that the sign-in's last response left are those of the next request, and are saved |
| `Session.SignedOut` | roles/desktop/files/hermes-menubar-bridge/hermes_bridge.py:1034-1048 | a completed sign-out leaves the configured origin, an empty jar and no file; where the file cannot be deleted only the jar is gone |
| `Session.ProbeReports` | roles/desktop/files/hermes-menubar-bridge/hermes_bridge.py:879-890 | a probe of the current session that finds it not expired reports what it found and changes nothing else |
| `Session.FileNamesOrigin` | roles/desktop/files/hermes-menubar-bridge/hermes_bridge.py:997-1005 | in every run a persisted source has a saved file naming the current origin, if and only if no sign-in failed to save without a section since that secured the file |
| `Session.AstrayExactly` | roles/desktop/files/hermes-menubar-bridge/hermes_bridge.py:997-1005 | the one-step form |
| `Session.SignInNotSaved` | roles/desktop/files/hermes-menubar-bridge/hermes_bridge.py:997-1005 | a run that makes a session persistent without a file |
| `Session.StaleIsHarmless` | roles/desktop/files/hermes-menubar-bridge/hermes_bridge.py:1288-1307 | a challenge or probe result whose snapshot is not the session changes nothing but its own flight |
| `Session.StaleForever` | roles/desktop/files/hermes-menubar-bridge/hermes_bridge.py:1280-1307 | a snapshot that is no longer current never becomes current again |
| `Session.StaleStaysStale` | roles/desktop/files/hermes-menubar-bridge/hermes_bridge.py:879-883 | no single lock section makes a stale snapshot current |
| `Session.ChallengeClears` | roles/desktop/files/hermes-menubar-bridge/hermes_bridge.py:1309-1322 | a challenge to the current session leaves no cookie in the jar, none in the file unless it held some and could not be written, and reports the expiry unless the write raised |
| `Session.ProbeClearsExactly` | roles/desktop/files/hermes-menubar-bridge/hermes_bridge.py:884-890 | an expired probe leaves no cookie in the file if and only if there was none, or the jar still held one and the file was written |
| `Session.SavedCookieOutlivesExpiry` | roles/desktop/files/hermes-menubar-bridge/hermes_bridge.py:884-888 | a run in which the saved cookie survives the expiry |
| `Session.RejectedSignInKeepsCookies` | roles/desktop/files/hermes-menubar-bridge/hermes_bridge.py:917-930 | a run in which a rejected sign-in reports the session expired and keeps every cookie |
| `Session.UnsavedExpiryKeepsFile` | roles/desktop/files/hermes-menubar-bridge/hermes_bridge.py:1309-1322 | a run in which the file cannot be written: the cookies stay saved and nothing is reported |
| `Session.ExpiryClearsExactly` | roles/desktop/files/hermes-menubar-bridge/hermes_bridge.py:884-930 | over every action that finds the session expired, with any outcome of the write: exactly when it is reported, and exactly when neither jar nor file holds a cookie afterwards; no other action reports it |
| `Session.ExpiryIsFinal` | roles/desktop/files/hermes-menubar-bridge/hermes_bridge.py:1309-1322 | after a challenge that left no cookie, nothing already in flight brings one back |
| `Session.ClearedStays` | roles/desktop/files/hermes-menubar-bridge/hermes_bridge.py:1280-1322 | no section except a new snapshot or a sign-in can put a cookie into a cleared session |
| `SessionLocks.RemoteAuth.SessionFault` | roles/desktop/files/hermes-menubar-bridge/hermes_bridge.py:1288-1322 | the section is the challenge step, for every outcome of the write; the fault reports a failed write, or asks for a sign-in exactly if the session is expired afterwards |
| `SessionLocks.RemoteAuth.ProbeCommitted` | roles/desktop/files/hermes-menubar-bridge/hermes_bridge.py:879-890 | the section is the step that ends a probe, for every outcome of the write |
| `SessionLocks.RemoteAuth.LoginCommitted` | roles/desktop/files/hermes-menubar-bridge/hermes_bridge.py:997-1005 | the section is the step that ends a sign-in, and raises exactly if the write does |
| `SessionLocks.RemoteAuth.LogoutCommitted` | roles/desktop/files/hermes-menubar-bridge/hermes_bridge.py:1034-1048 | the section is the step that ends a sign-out, whether or not the file can be deleted |
| `SessionLocks.RemoteAuth.CurrentSession` | roles/desktop/files/hermes-menubar-bridge/hermes_bridge.py:1280-1286 | the section is the step that begins a request, and hands out the snapshot it began with |
| `SessionLocks.RemoteAuth.BeginProbe` | roles/desktop/files/hermes-menubar-bridge/hermes_bridge.py:856-870 | the section is the step that begins a probe, on the session's jar or on one of its own |
| `SessionLocks.RemoteAuth.BeginLogin` | roles/desktop/files/hermes-menubar-bridge/hermes_bridge.py:903-908 | a sign-in begins on a jar that nobody else holds |
| `SessionLocks.RemoteAuth.LoginRejected` | roles/desktop/files/hermes-menubar-bridge/hermes_bridge.py:917-930 | the section is the step of a rejected sign-in |
| `SessionLocks.RemoteAuth.BeginLogout` | roles/desktop/files/hermes-menubar-bridge/hermes_bridge.py:1011-1012 | the section is the step that begins a sign-out |
| `SessionLocks.RemoteAuth.ConnectingStatus` | roles/desktop/files/hermes-menubar-bridge/hermes_bridge.py:398-409 | the section is the step that shows a connection attempt |
| `Refresh.RunKeeps` | roles/desktop/files/hermes-menubar-bridge/hermes_bridge.py:3476-3508 | in every run: at most one live worker, every pending invalidation has one, refreshes are spaced, and none runs without an invalidation of its own |
| `Refresh.StepKeeps` | roles/desktop/files/hermes-menubar-bridge/hermes_bridge.py:3476-3508 | every step keeps that invariant |
| `Refresh.StartsApart` | roles/desktop/files/hermes-menubar-bridge/hermes_bridge.py:3496-3505 | any two refreshes start at least one spacing apart, also across workers |
| `Refresh.NoLostWakeup` | roles/desktop/files/hermes-menubar-bridge/hermes_bridge.py:3485-3508 | after an invalidation, either a refresh started since or it is pending with a live worker |
| `Refresh.WorkerServes` | roles/desktop/files/hermes-menubar-bridge/hermes_bridge.py:3494-3508 | a pending invalidation is served in every run that gives its worker two turns if a refresh is under way and one otherwise, whatever else happens in between |
| `Refresh.AbortKeepsExactly` | roles/desktop/files/hermes-menubar-bridge/hermes_bridge.py:3499-3508 | another exception keeps the guarantees if and only if nothing was pending and the window had passed |
| `Refresh.AbortStrands` | roles/desktop/files/hermes-menubar-bridge/hermes_bridge.py:3499-3508 | a run that leaves an invalidation without a worker |
| `Refresh.AbortCrowds` | roles/desktop/files/hermes-menubar-bridge/hermes_bridge.py:3499-3508 | a run that starts two refreshes at the same instant |
| `Refresh.RefreshGate.RequestRemoteRefresh` | roles/desktop/files/hermes-menubar-bridge/hermes_bridge.py:3476-3492 | marks the list dirty and creates a worker only when none lives |
| `Refresh.RefreshGate.ListAnswered` | roles/desktop/files/hermes-menubar-bridge/hermes_bridge.py:3499-3505 | the worker sleeps exactly to the end of its window, or until now if that is over |
| `Refresh.SleepsOutWindow` | roles/desktop/files/hermes-menubar-bridge/hermes_bridge.py:3494-3510 | a worker sleeps out exactly the window of its refresh, and not at all once that is over |
| `Refresh.RefreshGate.WorkerTurn` | roles/desktop/files/hermes-menubar-bridge/hermes_bridge.py:3496-3508 | starts one refresh for everything pending, or leaves and clears the field |
| `Revisions.ComparesByValue` | roles/desktop/files/quickshell/Common/GitHubHelpers.js:1028-1040 | on numeric heads of any length the comparison is the integer order of the heads, then the string order |
| `Revisions.TotalOrder` | roles/desktop/files/quickshell/Common/GitHubHelpers.js:1028-1040 | transitive exactly on triples that are not circular, so a total order on numeric heads and one on all other heads |
| `Revisions.CircularExactly` | roles/desktop/files/quickshell/Common/GitHubHelpers.js:1031-1039 | three revisions beat each other in a circle if and only if two of them are numbers that the string order has the other way round, with a third that is not a number between them |
| `Revisions.Antisymmetric` | roles/desktop/files/quickshell/Common/GitHubHelpers.js:1028-1040 | antisymmetric on all strings, and zero exactly on equal ones |
| `Revisions.MixedHeadsCycle` | roles/desktop/files/quickshell/Common/GitHubHelpers.js:1031-1039 | a circular triple |
| `InboxRows.NewestEntityRows` | roles/desktop/files/quickshell/Common/GitHubHelpers.js:1042-1060 | one row per key, in order of first appearance, from the map of newest rows |
| `InboxRows.NewestIsMaximum` | roles/desktop/files/quickshell/Common/GitHubHelpers.js:1053-1057 | each entity keeps a row that none of its rows beats, if and only if it has one |
| `InboxRows.AlikeHasMaxima` | roles/desktop/files/quickshell/Common/GitHubHelpers.js:1028-1060 | every page has such rows whose revisions are, per entity and time, all numbers or all not |
| `InboxRows.NotificationsAlike` | roles/desktop/files/quickshell/Common/GitHubHelpers.js:792-796 | notification pages are of that kind |
| `InboxRows.CircularPage` | roles/desktop/files/quickshell/Common/GitHubHelpers.js:1053-1057 | an entity whose newest rows are a circular triple has none |
| `InboxRows.NewerMeans` | roles/desktop/files/quickshell/Common/GitHubHelpers.js:1053-1057 | a later snapshot is newer, at one time the larger number, and of equal numbers the larger text |
| `InboxRows.OrderFreeExactly` | roles/desktop/files/quickshell/Common/GitHubHelpers.js:1053-1057 | the time and revision kept are independent of the page's order if and only if there are such rows |
| `InboxRows.OrderFree` | roles/desktop/files/quickshell/Common/GitHubHelpers.js:1042-1060 | then the whole map is independent of the page's order |
| `InboxRows.OrderFreeRevision` | roles/desktop/files/quickshell/Common/GitHubHelpers.js:1053-1057 | two orders of one page keep the same entities at the same time and revision |
| `InboxRows.HistorySorted` | roles/desktop/files/quickshell/Common/GitHubHelpers.js:1630-1642 | with readable stamps the settled history is sorted newest first, in any locale |
| `InboxRows.EarlierMeans` | roles/desktop/files/quickshell/Common/GitHubHelpers.js:1632-1642 | by when a row was settled, else noticed, else dated, latest first, then by its date and its key |
| `InboxRows.EarlierNotTransitive` | roles/desktop/files/quickshell/Common/GitHubHelpers.js:1633-1642 | without a readable stamp the comparator is not transitive |
| `Inbox.PruneBounds` | roles/desktop/files/quickshell/Common/GitHubHelpers.js:1626-1651 | at most thirty settled rows remain, no other row is touched, and a shorter history is left alone |
| `Inbox.PruneKeepsNewest` | roles/desktop/files/quickshell/Common/GitHubHelpers.js:1643-1650 | what is dropped is older than what is kept, where the settled rows have readable stamps |
| `Inbox.StepKeeps` | roles/desktop/files/quickshell/Common/GitHubHelpers.js:1755-1879 | every step bounds the history and keeps rows active exactly while running |
| `InboxRuns.UnsettledStays` | roles/desktop/files/quickshell/Common/GitHubHelpers.js:1778-1821 | an unsettled row leaves that state only by a user settling it or its workflow running again |
| `InboxRuns.UnsettledNeverLost` | roles/desktop/files/quickshell/Common/GitHubHelpers.js:1752-1879 | over every run of reconciles, settlements and source removals the row is still there and unsettled otherwise |
| `InboxRuns.SettledWakes` | roles/desktop/files/quickshell/Common/GitHubHelpers.js:1778-1845 | a settled row wakes only by the user, by activity, or by a changed, non-lagging revision that a baselined source does not remember |
| `InboxRuns.SettledUntilWoken` | roles/desktop/files/quickshell/Common/GitHubHelpers.js:1755-1879 | over every run, whether it is retained or pruned in between |
| `InboxMemory.PrunedStaysAway` | roles/desktop/files/quickshell/Common/GitHubHelpers.js:1789-1792 | over every run a dropped settled row that its source remembers is not recreated, until that source lists it running or at another revision or is crowded, another source lists it without remembering it so, the source is dropped, or there is one source too many |
| `InboxMemory.DormantStays` | roles/desktop/files/quickshell/Common/GitHubHelpers.js:1732-1831 | the one-step form |
| `InboxMemory.RemembersExactly` | roles/desktop/files/quickshell/Common/GitHubHelpers.js:1732-1750 | a source's own page leaves such a row remembered in every enumeration order if and only if it lists the key among its first 400, or does not list it and there are at most 400 keys in all |
| `InboxMemory.ForgottenComesBack` | roles/desktop/files/quickshell/Common/GitHubHelpers.js:1741-1748 | after any other page, in some enumeration order, every later page that lists the row unchanged recreates it unsettled |
| `InboxRuns.SettlementFrame` | roles/desktop/files/quickshell/Common/GitHubHelpers.js:1833-1845 | settling or unsettling one row changes no other and drops at most history |
| `InboxRuns.BaselineIsQuiet` | roles/desktop/files/quickshell/Common/GitHubHelpers.js:1794-1805 | a source's first page makes nothing unsettled |
| `InboxRuns.ReconcileTwice` | roles/desktop/files/quickshell/Common/GitHubHelpers.js:1755-1831 | reconciling the same page of a baselined source again, at any time and in any enumeration order, changes neither items nor revision memory |
| `InboxRuns.DecideTwice` | roles/desktop/files/quickshell/Common/GitHubHelpers.js:1778-1820 | for one row a second look decides and remembers the same: lagging rows stay rejected, pruned rows are not recreated |
| `InboxRuns.FillAll` | roles/desktop/files/quickshell/Common/GitHubHelpers.js:1732-1750 | below its cap the revision memory forgets nothing, in any order |
| `InboxRuns.NormalizeIdentity` | roles/desktop/files/quickshell/Common/GitHubHelpers.js:1711-1730 | tables within their caps are kept whole |
| `InboxOutcomes.ListedOutcome` | roles/desktop/files/quickshell/Common/GitHubHelpers.js:1778-1821 | what a page of a known source does to an entity it lists, in full: a lagging snapshot is ignored, a running workflow is shown, news wakes the row whether settled or not, a dropped row stays away, a workflow that ended is unsettled, and an unchanged row stands |
| `InboxOutcomes.UnlistedOutcome` | roles/desktop/files/quickshell/Common/GitHubHelpers.js:1770-1776 | and to one it does not list: a live workflow of that source is gone, everything else stands |
| `InboxOutcomes.BaselineOutcome` | roles/desktop/files/quickshell/Common/GitHubHelpers.js:1794-1805 | a source's first page: running rows are shown, rows that stand keep their standing, new ones are history |
| `InboxOutcomes.PageIsRemembered` | roles/desktop/files/quickshell/Common/GitHubHelpers.js:1732-1750 | of each of its first 400 entities the source remembers the page's revision, or where the page lagged the one that stands |
| `InboxOutcomes.OwnRowsRemembered` | roles/desktop/files/quickshell/Common/GitHubHelpers.js:1736-1740 | rows of the source are not forgotten while the page and they fit |
| `InboxOutcomes.SettleOutcome` | roles/desktop/files/quickshell/Common/GitHubHelpers.js:1833-1845 | settling a row that is not running settles it at the given time, else the time it had, unsettling wakes it, and only history can be dropped, and only above the limit |
| `InboxOutcomes.SettleAllOutcome` | roles/desktop/files/quickshell/Common/GitHubHelpers.js:1847-1864 | no row stays unsettled, running and settled rows are untouched, and only history is dropped |
| `InboxOutcomes.DropOutcome` | roles/desktop/files/quickshell/Common/GitHubHelpers.js:1866-1879 | dropping sources takes exactly their baselines and live workflows |
| `Inbox.LagMeans` | roles/desktop/files/quickshell/Common/GitHubHelpers.js:1783-1789 | event pages lag behind a row that is newer by time or revision, other pages only behind a later one |
| `InboxMethods.ReconcileInboxSource` | roles/desktop/files/quickshell/Common/GitHubHelpers.js:1755-1831 | the key-by-key program is the step of which `InboxOutcomes.ListedOutcome`, `UnlistedOutcome`, `BaselineOutcome` and `PageIsRemembered` say what it does to every entity, and reports a baseline exactly for an unknown source |
| `InboxMethods.MergeRows` | roles/desktop/files/quickshell/Common/GitHubHelpers.js:1770-1821 | deleting vanished workflows and merging row by row gives the merged Inbox and what is remembered |
| `InboxMethods.FillMemory` | roles/desktop/files/quickshell/Common/GitHubHelpers.js:1741-1748 | the capped loop fills the revision memory in order |
| `InboxMethods.SettleAllInboxItems` | roles/desktop/files/quickshell/Common/GitHubHelpers.js:1850-1864 | the bulk loop settles every unsettled row that can be and nothing else, then prunes |
| `ManagedFile.UserBytesSurvive` | image/library/cybexos_managed_file.py:30-65 | over whole runs with crashes and user edits, bytes never offered by the vendor are never replaced or removed, and whatever is, is saved first |
| `ManagedFile.ManageIsSafe` | image/library/cybexos_managed_file.py:29-66 | however far a call gets it touches one path, and the ledger holds only vendor contents |
| `ManagedFile.CallOutcome` | image/library/cybexos_managed_file.py:42-66 | a completed call reaches and records its goal exactly where the path is absent with nothing adopted, or a file that holds the wanted bytes or recorded ones, saving what it replaces; everywhere else it changes nothing |
| `ManagedFile.BackupsGrow` | image/library/cybexos_managed_file.py:51-55 | saved copies are never dropped |
| `ManagedFile.DeletionStays` | image/library/cybexos_managed_file.py:44-46 | once an adopted file is deleted, no later call brings it back |
| `ManagedFile.CrashRecovers` | image/library/cybexos_managed_file.py:42-66 | after a crash at any step the same call reaches and records its goal, if and only if the crash does not look like a deletion |
| `ManagedFile.UpdateRecovers` | image/library/cybexos_managed_file.py:42-66 | an update of an owned file always recovers |
| `ManagedFile.LooksDeletedForever` | image/library/cybexos_managed_file.py:45-46 | a first creation cut after the first ledger write, and a removal cut after the unlink, stay absent for good |
| `ManagedFile.SettledIsStable` | image/library/cybexos_managed_file.py:47-66 | a further run changes nothing |
| `ManagedFile.ManageIs` | image/library/cybexos_managed_file.py:50-66 | the disk after any number of durable steps |
| `ManagedFile.Machine.ManageFile` | image/library/cybexos_managed_file.py:23-66 | the program performs the planned steps in order until its budget ends; it reports a change exactly if the path is the vendor's and its content differs, preservation exactly if the path is not the vendor's, and then leaves the disk as it was; a completed call on a vendor's path reaches and records its goal |
| `ManagedFile.Machine.Execute` | image/library/cybexos_managed_file.py:50-66 | backup, both digests, publication, final digest, in that order |
| `Publish.StepKeeps` | image/pxe_publish.py:163-194 | the ISO is visible only beside a matching checksum its publisher linked before; a visible pair is never replaced; a checksum goes only by its own publisher's undo |
| `Publish.RunInvariant` | image/pxe_publish.py:163-194 | in every run of any number of interleaved or crashing publishers |
| `Publish.PairIsPermanent` | image/pxe_publish.py:181-188 | once visible, the pair stays |
| `Publish.SuccessIsVisible` | image/pxe_publish.py:163-194 | every successful return has its content and checksum visible, then and ever after |
| `Publish.SuccessesAgree` | image/pxe_publish.py:163-167 | two publishers that succeed published the same content |
| `Publish.OrphanBlocks` | image/pxe_publish.py:183-188 | a checksum whose publisher is over stays alone, and blocks the name for good |
| `Publish.AloneExactly` | image/pxe_publish.py:183-188 | in every state of every run a checksum stands alone if and only if a publisher is between the two links, or crashed there, or failed to undo the first |
| `Publish.NameBlocked` | image/pxe_publish.py:183-188 | a run with a crash and a run with a failed undo |
| `Publish.ServedDirectory.PublishIso` | image/pxe_publish.py:150-194 | alone, publication is a run of steps, all or nothing unless the undo fails too, and which of the outcomes occurs |
| `Publish.ServedDirectory.LinkSum` | image/pxe_publish.py:183 | the call is the step that links the checksum, refused where the name is taken |
| `Publish.ServedDirectory.LinkIso` | image/pxe_publish.py:185 | the call is the step that links the ISO, refused where the name is taken |
| `Publish.ServedDirectory.LinkBoth` | image/pxe_publish.py:168-193 | staging, both links, undo and sync are steps; the directory ends with the pair, or as it was, or with the checksum that could not be removed |
| `Publish.ServedDirectory.Verify` | image/pxe_publish.py:164-166 | comparing the existing files is two steps, and succeeds exactly if both match |
| `ListSync.ListSyncOps` | roles/desktop/files/quickshell/Common/HermesHelpers.js:344-370 | applied in order the script stays in range and yields exactly the wanted keys with kept rows in their old order; no inserts when rows only vanish, no removes when rows only appear; every old row whose key is still wanted survives if and only if the keys both lists hold are in the same order; and no script recreates or removes fewer rows if and only if it keeps as many as the longest common subsequence has |
| `ListSync.MinimalExactly` | roles/desktop/files/quickshell/Common/HermesHelpers.js:338-343 | the same for the script of every arrangement of the wanted keys |
| `ListSync.YieldBound` | roles/desktop/files/quickshell/Common/HermesHelpers.js:338-343 | whatever script yields the wanted keys keeps old rows in order and pays for every row it does not keep |
| `ListSync.ScriptReaches` | roles/desktop/files/quickshell/Common/HermesHelpers.js:344-370 | every arrangement is reached by its script |
| `ListSync.SurviveExactly` | roles/desktop/files/quickshell/Common/HermesHelpers.js:344-370 | the survival condition for the rows the source chooses |
| `ListSync.SameOrderIsMinimal` | roles/desktop/files/quickshell/Common/HermesHelpers.js:338-343 | where the common keys are in the same order the script is minimal |
| `ListSync.RotationBackIsMinimal` | roles/desktop/files/quickshell/Common/HermesHelpers.js:338-343 | and it can be where they are not |
| `ListSync.SurvivorsInOrder` | roles/desktop/files/quickshell/Common/HermesHelpers.js:338-343 | keeping every surviving row requires that order |
| `ListSync.RotationIsNotMinimal` | roles/desktop/files/quickshell/Common/HermesHelpers.js:338-343 | a script that changes more rows than needed |
| `ListSync.IndexOf` | roles/desktop/files/quickshell/Common/HermesHelpers.js:356 | the first occurrence from a position on |
| `ListSync.NextKept` | roles/desktop/files/quickshell/Common/HermesHelpers.js:356-360 | when rows only vanish the next key is found, and its first occurrence is the right one |
| `ListSync.NextNew` | roles/desktop/files/quickshell/Common/HermesHelpers.js:361-364 | when rows only appear a key that is not next is new |
| `EthernetPrint.RoundTrip` | roles/desktop/files/quickshell/Common/EthernetHelpers.js:103-176 | for every list of well-formed devices, printing and parsing returns exactly the Ethernet devices in sorted order |
| `Ethernet.DanglingGivesUp` | roles/desktop/files/quickshell/Common/EthernetHelpers.js:119-128 | a dangling escape in any line makes the whole read null |
| `Ethernet.ParseDevices` | roles/desktop/files/quickshell/Common/EthernetHelpers.js:103-176 | the loops compute the reading function |
| `Ethernet.SortedInOrder` | roles/desktop/files/quickshell/Common/EthernetHelpers.js:171-174 | connected devices first, then by the locale's order |
| `Ethernet.Sorted` | roles/desktop/files/quickshell/Common/EthernetHelpers.js:171-175 | sorting keeps exactly the devices |
| `Ethernet.ShownIs` | roles/desktop/files/quickshell/Common/EthernetHelpers.js:150-170 | a device shows its name and code, its connection unless that is the dash, its address, and whether it is activated, in word and flag alike |
| `Ethernet.FirstIpv4Is` | roles/desktop/files/quickshell/Common/EthernetHelpers.js:83-93 | the address is that of the first value with one, without the prefix length |
| `Ethernet.AddressRead` | roles/desktop/files/quickshell/Common/EthernetHelpers.js:83-93 | an address with a prefix length, as nmcli prints it, is read back |
| `Ethernet.DottedIsQuad` | roles/desktop/files/quickshell/Common/EthernetHelpers.js:89 | exactly four groups of one to three digits with dots between them are an address |
| `Ethernet.AddressKeyIs` | roles/desktop/files/quickshell/Common/EthernetHelpers.js:143-144 | an address field is exactly one whose key is that head, a number and a closing bracket |
| `Terse.UnescapeValue` | roles/desktop/files/quickshell/Common/EthernetHelpers.js:48-63 | the character loop removes the escapes, or fails at a dangling one |
| `Terse.UnescapeEscape` | roles/desktop/files/quickshell/Common/EthernetHelpers.js:48-63 | unescaping undoes escaping |
| `Terse.FieldLine` | roles/desktop/files/quickshell/Common/EthernetHelpers.js:65-81 | the character loop splits at the first colon that is not escaped |
| `Terse.FieldRoundTrip` | roles/desktop/files/quickshell/Common/EthernetHelpers.js:65-81 | a printed field parses to itself |
| `Terse.DanglingIsNoField` | roles/desktop/files/quickshell/Common/EthernetHelpers.js:73-80 | a line that stops inside an escape is no field |
| `Terse.StateRoundTrip` | roles/desktop/files/quickshell/Common/EthernetHelpers.js:95-101 | a printed state parses to its code |
| `Terse.AnnotatedState` | roles/desktop/files/quickshell/Common/EthernetHelpers.js:95-101 | digits, alone or with white space and a note in parentheses on the same line, are a state with that code |
| `Terse.StateIsAnnotated` | roles/desktop/files/quickshell/Common/EthernetHelpers.js:95-101 | and nothing else is one |
| `Terse.CrLfBecomesLf` | roles/desktop/files/quickshell/Common/EthernetHelpers.js:119 | each CR LF becomes one LF |
| `Terse.NoPairUnchanged` | roles/desktop/files/quickshell/Common/EthernetHelpers.js:119 | and a text without one is unchanged |
| `EthernetPrint.ReadDevice` | roles/desktop/files/quickshell/Common/EthernetHelpers.js:120-147 | reading a device's lines adds exactly its record |
| `FitBar.FitTheBar` | roles/desktop/files/quickshell/Common/LayoutHelpers.js:134-269 | when it fits, the lanes and gutters are disjoint at the returned position, which is the nearest to the wish; compaction is the shortest prefix that fits centred; modules overflow only when the fully compacted bar fits nowhere; and when it does not fit every eligible module was hidden |
| `FitBar.CompactLabels` | roles/desktop/files/quickshell/Common/LayoutHelpers.js:190-206 | the shortest prefix of the priority order that fits centred, or all of it |
| `FitBar.HideModules` | roles/desktop/files/quickshell/Common/LayoutHelpers.js:223-257 | the shortest prefix of the overflow order after which the bar fits somewhere, or all of it |
| `FitBar.Place` | roles/desktop/files/quickshell/Common/LayoutHelpers.js:208-218 | the wish if clear, else the clamped position, else no fit |
| `FitBar.NarrowHelps` | roles/desktop/files/quickshell/Common/LayoutHelpers.js:156-173 | compacting or hiding takes room out of the module's own lane and nowhere else, widens none, and never makes a fitting bar stop fitting |
| `FitBar.ClampIsNearest` | roles/desktop/files/quickshell/Common/LayoutHelpers.js:210-216 | some position is clear exactly when the range is not empty, and clamping finds the nearest |
| `FitBar.WishIsCentred` | roles/desktop/files/quickshell/Common/LayoutHelpers.js:175-187 | the wish puts the clock in the middle of the bar, and the bar fits centred exactly if both halves clear their lanes |
| `FitBar.StartsAsMeasured` | roles/desktop/files/quickshell/Common/LayoutHelpers.js:134-151 | the bar starts as it was measured |
| `FitBar.PriorityOrder` | roles/desktop/files/quickshell/Common/LayoutHelpers.js:189-206 | labels give way in the compaction order, first those that may be compacted and then those that had rather not be |
| `FitBar.CompactedModules` | roles/desktop/files/quickshell/Common/LayoutHelpers.js:156-206 | exactly the always-compact modules and those that gave way are compact |
| `FitBar.CompactThenHide` | roles/desktop/files/quickshell/Common/LayoutHelpers.js:156-257 | compacting a module and then hiding it takes its whole width out of its lane, once |
| `FitBar.HideSide` | roles/desktop/files/quickshell/Common/LayoutHelpers.js:162-171 | and on its own side of the clock |
| `FitBar.HiddenAre` | roles/desktop/files/quickshell/Common/LayoutHelpers.js:223-257 | hidden are, of the given modules, those on the bar |
| `Countdown.ConstantBefore` | roles/desktop/files/quickshell/Common/CountdownHelpers.js:20-26 | strictly before the delay the label reads the same |
| `Countdown.ChangesAt` | roles/desktop/files/quickshell/Common/CountdownHelpers.js:20-26 | at the delay it reads differently |
| `Countdown.NextChangeRange` | roles/desktop/files/quickshell/Common/CountdownHelpers.js:20-26 | the delay is positive and at most the time left |
| `Countdown.TextInjective` | roles/desktop/files/quickshell/Common/CountdownHelpers.js:6-15 | different labels are different texts |
| `Countdown.LabelMeans` | roles/desktop/files/quickshell/Common/CountdownHelpers.js:6-15 | the label says the time left rounded up: to seconds in the final minute, to minutes before, hours split off from the first full hour on |
| `Countdown.DueMeans` | roles/desktop/files/quickshell/Common/CountdownHelpers.js:34 | a reminder runs out at its due second, and a minute before it a minute is left |
| `Countdown.SoonestChange` | roles/desktop/files/quickshell/Common/CountdownHelpers.js:30-39 | the least delay over the reminders still counting down, 0 exactly when there is none |
| `Countdown.FirstInstant` | roles/desktop/files/quickshell/Common/CountdownHelpers.js:30-39 | no label changes before the answer |
| `Countdown.SomeLabelChanges` | roles/desktop/files/quickshell/Common/CountdownHelpers.js:30-39 | at the answer one does |

## Left out

- HTTP, redirects, cookie parsing, URL normalisation and credential file permissions in the bridge: library behaviour; a request ends by success, challenge or failure, and which cookies a save keeps is any subset of the jar's.
- Replacing, stopping or restarting a stream attachment, and task cancellation: the reader is one attachment, whose loop may stop after any attempt. A handler fault that the loop does not catch ends it and is not told apart from one it catches.
- UTF-8 decoding of event lines, and line sizes in bytes rather than characters.
- Reasoning, tool, approval and metadata events: they change neither the transcript text nor the completion.
- `HermesGateway.request` delivery classification: it depends on socket timing.
- `stop_remote_observers`, which cancels the refresh worker.
- Cleaning and classifying GitHub payloads, labels, tones and the sort order of the visible lists; rows enter the model normalised.
- InboxRuns.ReconcileTwice: holds within the caps of 100 sources and 400 remembered keys; beyond 400 the memory forgets, and a forgotten settled row can come back (`InboxMemory.ForgottenComesBack`).
- Inbox.PruneKeepsNewest: needs readable stamps on the settled rows, because without one the source's comparator is not transitive (`InboxRows.EarlierNotTransitive`).
- Dropping sources and settling one row are functions, not loops: `Inbox.RemoveSources` and `Inbox.SetSettlement` give their whole result at once.
- Mode lists, scales, monitor identities and the saved display document; a draft carries its logical size.
- DisplayMoves.Nudge: up and down land as near to the centred place as a usable position on that side is, not always exactly there, because snapping and clearing the other displays may move it.
- Fractional, missing or non-numeric arguments that JavaScript coerces (`count` of `columnsFor`, coordinates, bar options, due times that are not numbers).
- File modes, directory creation and temporary files of the managed-file writer, and other processes changing a file during a call.
- An asynchronous interrupt that lands between the effect of the second hard link and its return, which would unlink the checksum of a visible ISO.
- Files put into the served directory by anything but publishers, and symbolic links there.
- State codes of nmcli beyond what a double holds exactly, and white space outside the usual characters in `trim` and `strip`.
- VM qualification, release signing, payload assembly, audio, Bluetooth, battery, calendar, launcher and palette helpers: plumbing, or filters and sorts that would only add easy members.

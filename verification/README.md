# ccdash: protocols and state machines, proved

ccdash watches Claude Code sessions. A collector keeps their state in SQLite and streams their screens; a hub, run as
several replicas on Kubernetes, connects browsers to the collectors through tunnels. What these parts promise holds only
over whole runs: of many replicas, of many hook calls, of a clock. This project models them and proves those promises.

| file | models |
|---|---|
| `Optimistic.dfy`, `Replica.dfy` | optimistic writes of many replicas to one versioned Secret, with lost replies and stale reads; one replica's `refresh` and retry loop as a class running inside it |
| `HubDoc.dfy`, `StateDoc.dfy`, `Letters.dfy`, `HubEffects.dfy`, `HubStore.dfy` | the state document, its callbacks as functions and as in-place edits, what each changes, device letters, and what the store promises |
| `Tunnels.dfy`, `TunnelHub.dfy` | one tunnel per device across replicas, and the classes of one replica |
| `Tokens.dfy` | which token a tunnel can be left with when tokens are rotated and caches step back |
| `Screen.dfy`, `ScreenStream.dfy`, `ScreenViewer.dfy` | the screen stream: kicks, snapshots, diffs, and the client's rows |
| `StrFilter.dfy` | the byte filter in front of the terminal emulator |
| `TailScan.dfy`, `AppendOnly.dfy` | the backwards tail scan and the two caches that only read what was appended |
| `Sessions.dfy`, `Waits.dfy`, `SessionDB.dfy` | the session table, what a session declares it waits for, and the database object |
| `Projects.dfy` (with `Order.dfy`) | project order, moves, renames and merges |
| `Bucket.dfy`, `Windows.dfy` | the token bucket, the two sliding windows |
| `Drafts.dfy`, `DraftStore.dfy` | the newest drafts of an owner, as lists and over the replicated store |
| `Restart.dfy` | the scheduled restart |
| `Shell.dfy` | the printed command line against a POSIX shell's reading of it |

The usual shape is: a step function over values; an invariant that every step keeps; theorems over every run; and classes
whose methods update their fields the way the Go code does and are proved to do exactly the steps of the model.
Goroutines are sequences of atomic steps (a locked section, an API request), and everything that may happen in between
is a schedule of other steps, chosen arbitrarily.

## Where the code does less than it says

- **Progress.** A call that gives up after nine conflicts was overtaken by eight other commits, provided it never retried
  on a cache older than its own last read (`Optimistic.SomeoneProgresses`), for example because its replica's cache never
  steps backwards (`Optimistic.ForwardCacheProgresses`). `refresh` reads outside the lock and installs later, so a cache can
  step back, and then nine conflicts can happen without a single commit (`Optimistic.StaleCacheStarves`).
- **Newest tunnel wins.** The start time is drawn before the lock is taken and the tunnel registered. A tunnel registered
  after its replica has looked at a newer one's drop stays beside it (`Tunnels.LateTunnelStays`); these are the only second
  tunnels (`Tunnels.SecondTunnelCameLate`), so registering in time excludes them (`Tunnels.AtMostOneTunnel`). On one replica
  the older tunnel can even be registered over the newest and close it (`Tunnels.OlderTakesPlace`).
- **Test and drop.** `handleDrop` and `revalidateConns` test in one locked section and drop in a later one. A tunnel
  registered in that gap is dropped although it is the newest, or has the new token (`Tunnels.SplitDropHitsNewest`).
- Apart from these two, the newest tunnel stays until it ends or is revoked, over every run (`Tunnels.NewestTunnelStays`);
  a replica that registers neither in such a gap nor over a newer tunnel, which it could see under its lock, keeps the
  promise (`Tunnels.TidyNewestStays`). A revocation drops whatever its replica holds by then.
- **Old tokens.** At rest, with a current cache and all tests done, a tunnel has the current token unless it was registered
  with another one than its replica had cached by then, or a write of its replica cached a new token without testing
  (`Tokens.OldTokenOnlySlips`). Both happen (`Tokens.LateRegistrationSlips`, `Tokens.OwnWriteSlips`).
- **Drafts.** An addition reads the list from the cache and writes it back whatever is there. On a single replica, with
  every call acknowledged, a draft can be lost (`DraftStore.AcknowledgedDraftLost`). `DraftStore.AdditionKeepsIff` says
  exactly when an addition loses nothing, and `DraftStore.StoreKeepsNewest` when none does.
- **Typing while scrolled back** snaps the view to the live screen but wakes nobody. A client can be left showing the old
  rows (`ScreenStream.StaleAfterTyping`), and only a viewer that has typed so since its last snapshot can
  (`ScreenStream.ClientShowsScreen`); it is stale exactly when the scrolled rows differ from the live ones
  (`ScreenStream.TypingWhileScrolled`).
- **A declared "needs_you"** does not always stay until the next prompt: a tool hook or the watcher of the screen clears it,
  whoever set it (`Waits.DeclaredNeedCleared`).
- **The handlers are not atomic.** A prompt between the last two statements of a Stop is followed by the Stop's mark
  (`Waits.StopCrossedByPrompt`).
- **The end of a turn** is two statements. A declaration made between them is still reported at the next Stop exactly when
  the session had none before (`Waits.LateDeclarationKeptIff`).
- **Tail scan.** It stops at 16 MiB without a prompt; the result is that of a whole pass exactly when it found a prompt,
  reached the start, or nothing older adds anything (`TailScan.ScanIsWholePassIff`).
- **Moving a project** there and back is the identity whenever the ends do not cut the move short, and also when it starts
  at the end it leads away from; in no other case (`Projects.MoveAndBackIff`).
- **Headless** is tested with `LIKE 'sdk-%'`, which ignores case, in one place and with a case-sensitive prefix in another.
  Both are modelled as they are.

## Model

| member | source | states |
|---|---|---|
| Optimistic.StepKeeps | internal/hub/k8sstore.go:226-275 | Every fetch, install, callback run, accepted or conflicting PUT, and lost reply keeps: stored documents are serial, one commit per call, every cache and read is a committed pair, every reply is true |
| Optimistic.Serializable | internal/hub/k8sstore.go:250-275 | Over every interleaving each version equals the stored callbacks replayed one after another on the empty document, each call stored at most once, and all caches and reads in flight are some version |
| Optimistic.SerialIsReplay | internal/hub/k8sstore.go:250-275 | The step-wise notion of a serial log and the independent replay function agree on every version |
| Optimistic.NothingLost | internal/hub/k8sstore.go:699-722 | Commits are only appended; finished calls keep their answers; an acknowledged write is in every later history |
| Optimistic.RepliesTell | internal/hub/k8sstore.go:250-275 | What each reply lets a caller conclude: a write acknowledged is stored at that version with that result; refused or unchanged answers come from a committed version; conflict means not stored |
| Optimistic.SomeoneProgresses | internal/hub/k8sstore.go:250-275 | A call that gives up after nine conflicts and never retried on a cache older than its last read was overtaken by at least eight commits of other calls since it began |
| Optimistic.ForwardCacheProgresses | internal/hub/k8sstore.go:226-275 | The same for any call of a replica whose cache never steps backwards, whatever other replicas' caches do |
| Optimistic.StaleCacheStarves | internal/hub/k8sstore.go:226-236 | A run in which a call gives up after nine conflicts although nothing was committed since it began, because of late installs |
| Optimistic.NineAttempts | internal/hub/k8sstore.go:250-275 | No call runs its callback more than nine times, and one that gives up on conflicts has run it exactly nine times |
| ReplicaStore.Replica.Refresh | internal/hub/k8sstore.go:226-243 | Its read and later install are two steps of the system, whatever happens in between, and the fields stay this replica's cache |
| ReplicaStore.Replica.PutState | internal/hub/k8sstore.go:699-722 | One PUT: accepted, conflicting, accepted with the reply lost, or given up on while the server may still decide it |
| ReplicaStore.Replica.Reread | internal/hub/k8sstore.go:250-275 | After a conflict the document is read again and installed, or the call ends with an error |
| ReplicaStore.Replica.Mutate | internal/hub/k8sstore.go:250-275 | The retry loop takes steps of the system and nothing else, and returns the reply its call ended with there |
| Letters.ValidateLetter | internal/hub/store.go:258-268 | Accepts exactly the 702 letters |
| Letters.NextFreeIsFirst | internal/hub/store.go:271-285 | A letter is found exactly when one is left, and no earlier one is free |
| Letters.NextLetter | internal/hub/store.go:271-285 | The nested search finds that first free letter |
| Letters.LettersInOrder | internal/hub/store.go:271-285 | The order is A to Z, then AA to ZZ alphabetically |
| HubDoc.ApplyValid | internal/hub/k8sstore.go:283-496 | Every callback keeps ids, names, non-empty letters, endpoints and subscription ids unique, the latter at most NextSubID |
| HubDoc.LetteredChangesLetters | internal/hub/k8sstore.go:171-195 | Backfilling changes nothing but missing letters and keeps letters unique |
| HubDoc.LetteredInOrder | internal/hub/k8sstore.go:171-195 | Of two devices without a letter the earlier registered gets the earlier letter, and the later one none unless the earlier got one |
| HubDoc.LetteredComplete | internal/hub/k8sstore.go:171-195 | A device stays without a letter only when all 702 are taken |
| HubDoc.RegistrationOrder | internal/hub/k8sstore.go:171-195 | Letters are wanted by devices without one but the local one, and go by creation time, then by id |
| HubDoc.ApplyKeepsIds | internal/hub/k8sstore.go:473-496 | No callback reuses a subscription id, and neither does an import where none was handed out |
| HubDoc.ImportKeepsIdsIff | internal/hub/k8sstore.go:132-138 | The import callback taken alone respects ids handed out, whatever it brings, exactly when it refuses to write or no subscription was ever made |
| HubEffects.ApplyTells | internal/hub/k8sstore.go:283-496 | What each callback writes, entry by entry: which one changes and in which fields, which is taken out or added, and that all others stay; when it refuses and with which error; when it writes nothing |
| HubEffects.OneReason | internal/hub/k8sstore.go:283-496 | These descriptions exclude each other, so the kind of outcome follows from them |
| StateDocObject.StateDoc.Clone | internal/hub/k8sstore.go:93-99 | A fresh object with the same document, so edits never reach the cached one |
| StateDocObject.StateDoc.CreateDevice | internal/hub/k8sstore.go:312-328 | The in-place edit ends as the callback on values does, with the same document: duplicate names refused, else appended with the next free letter |
| StateDocObject.StateDoc.DeleteDevice | internal/hub/k8sstore.go:346-355 | As above; by HubEffects.ApplyTells, exactly the device with that id goes and the order stays |
| StateDocObject.StateDoc.RenameDevice | internal/hub/k8sstore.go:357-369 | As above: refused when another device has the name |
| StateDocObject.StateDoc.TouchDevice | internal/hub/k8sstore.go:412-425 | As above: skipped while nothing changed and the last touch is recent |
| StateDocObject.StateDoc.ChangeLetter | internal/hub/k8sstore.go:438-452 | As above: refused when another device has the letter |
| StateDocObject.StateDoc.AddSubscription | internal/hub/k8sstore.go:473-485 | As above: an endpoint known is updated in place, a new one gets the next id |
| StateDocObject.StateDoc.RemoveSubscription | internal/hub/k8sstore.go:487-496 | As above: exactly that endpoint goes |
| StateDocObject.StateDoc.BackfillLetters | internal/hub/k8sstore.go:171-195 | Sorting the devices without a letter and looping over them gives what taking the earliest one at a time gives |
| HubStore.StoredDocsValid | internal/hub/k8sstore.go:250-275 | Over every interleaving of replicas, every document ever stored and every cached one has those unique names, letters, endpoints and ids |
| HubStore.SecretsAgree | internal/hub/k8sstore.go:283-300 | For a key nobody overwrites, all error-free secret calls on all replicas at all times return one value, also racing on an empty store or with an import |
| HubStore.CreatedDeviceIsStored | internal/hub/k8sstore.go:312-328 | The device returned is the one committed, with the letter returned, empty only if all 702 were taken in the document it joined |
| HubStore.StartedRunKeeps | internal/hub/hub.go:152-160 | As long as subscriptions are only added after some secret call came back, every one was added where there are keys, so that an import no longer writes |
| HubStore.SubIdsNeverReused | internal/hub/k8sstore.go:473-485 | Over every such interleaving, imports included, an id never passes from one push endpoint to another between any two versions |
| HubEffects.AnswersTell | internal/hub/k8sstore.go:250-275 | Over every interleaving, an acknowledged write had its described effect from one stored version to the next, and any other definite answer had its reason at a stored version |
| HubEffects.DeletedIsGone | internal/hub/k8sstore.go:346-355 | An acknowledged deletion leaves exactly the devices with another id in the version of its reply |
| HubEffects.RotatedIsStored | internal/hub/k8sstore.go:330-344 | An acknowledged rotation leaves the device with the new token hash and no other |
| Tunnels.StepKeeps | internal/hub/hub.go:919-961 | Every accept, registration, close, drop, cleanup and revocation keeps the invariant that an older registered tunnel still has a drop of the newer one ahead of it, or came late |
| Tunnels.SecondTunnelCameLate | internal/hub/cluster.go:254-310 | With nothing on its way, a second open tunnel of a device is on another replica and was registered after that replica had looked at a newer drop |
| Tunnels.AtMostOneTunnel | internal/hub/cluster.go:254-310 | With nothing on its way, at most one replica holds an open tunnel for a device whose tunnels are registered before their replica has looked at a newer one's drop, with drops split in two |
| Tunnels.InTimeIff | internal/hub/cluster.go:254-275 | A run registers in time exactly when no tunnel of the device is recorded as late |
| Tunnels.OrderedIsInTime | internal/hub/hub.go:919-929 | Registering in the order of start times is in time, and never over a newer tunnel |
| Tunnels.NewestTunnelStays | internal/hub/hub.go:919-961 | Over every run, with split drops and any order of registration, a device's newest tunnel stays registered and open until it ends or is revoked, or else was registered between its replica's test and drop, or had an older one registered over it |
| Tunnels.TidyNewestStays | internal/hub/hub.go:919-961 | If no tunnel of the device is registered in such a gap or over a newer one, it stays until it ends or is revoked |
| Tunnels.TidyIff | internal/hub/cluster.go:265-273 | A run has no such registration exactly when none is recorded |
| Tunnels.UnregisteredOnlyBy | internal/hub/hub.go:949-961 | What can unregister a tunnel, step by step: never the cleanup of another one |
| Tunnels.InstallDoes | internal/hub/hub.go:927-947 | A registration takes the place, sets aside what it replaces for closing, leaves other devices alone, and tells every other replica its start time |
| Tunnels.RevocationReachesOthers | internal/hub/hub.go:864-870 | After a revocation told the others, once nothing is on its way, no tunnel of the device that another replica held then is registered or open, whatever happened in between |
| Tunnels.RevocationHere | internal/hub/hub.go:854-862 | Nor is the one the revoking replica held |
| Tunnels.LateTunnelStays | internal/hub/hub.go:919-947 | A run after which two tunnels of a device stay with nothing on its way |
| Tunnels.SplitDropHitsNewest | internal/hub/cluster.go:254-275 | A run in which a split drop unregisters the newest tunnel |
| Tunnels.OlderTakesPlace | internal/hub/hub.go:922-935 | A run on one replica in which the older tunnel is registered last and closes the newest, outside any gap |
| Tokens.OldTokenOnlySlips | internal/hub/hub.go:229-250 | At rest after any rotations and refreshes, back and forth, a tunnel has the current token unless it slipped |
| Tokens.StepsLookAt | internal/hub/hub.go:229-250 | Agents are let in with the cached token, and a test dooms the tunnel exactly when the listing has another |
| Tokens.CarefulEndsCurrent | internal/hub/hub.go:893-929 | It always has, if only tunnels with the cached token are registered and no own write caches another one untested |
| Tokens.LateRegistrationSlips | internal/hub/hub.go:899-929 | A run that leaves an old token at rest: let in before, registered after the refresh and its test |
| Tokens.OwnWriteSlips | internal/hub/k8sstore.go:262-268 | Another: the cache steps back, and a write of the replica's own caches the new token without a test |
| TunnelHub.Hub.Register | internal/hub/hub.go:919-947 | Installs the tunnel and closes the one it replaced, as steps of the deployment |
| TunnelHub.Hub.Finish | internal/hub/hub.go:948-961 | Afterwards this tunnel is neither open nor registered; a newer one under the same id is left alone |
| TunnelHub.Hub.ServeDevice | internal/hub/hub.go:919-961 | The whole life of a tunnel is steps of the deployment, whatever else happens in between |
| TunnelHub.Hub.HandleDrop | internal/hub/cluster.go:254-275 | A tunnel older than the drop's start time, or any when the drop has none, ends up unregistered; what is dropped is that tunnel or came in the gap, and is closed; otherwise nothing changes |
| TunnelHub.Hub.DropOne | internal/hub/hub.go:854-862 | The second locked section and the close after it: what is held then is unregistered and its session closed, with anything in between |
| TunnelHub.Hub.RevokeHere | internal/hub/hub.go:854-862 | Removes and returns the device's tunnel, and closes its session |
| TunnelHub.Hub.Revalidate | internal/hub/hub.go:229-250 | Every tunnel whose device is gone or whose token changed ends up unregistered; whatever is dropped is one of these or was registered after the test, and is closed |
| TunnelHub.Cluster.Refresh | internal/hub/cluster.go:332-382 | Exactly the peers that answered, or answered recently enough and still exist, remain, each with its newest answer |
| TunnelHub.Cluster.Owner | internal/hub/cluster.go:401-410 | A peer is found exactly when one claims the device, and none claims a newer tunnel, in whatever order peers are visited |
| Screen.SnapshotTwice | internal/server/screen.go:378-415 | Taking a snapshot again without a change of the screen shows the same rows and leaves the view alone |
| Screen.ShownRow | internal/server/screen.go:378-435 | Row by row: a live view shows the grid; one scrolled back by n shows the last n lines of the scrollback and then the grid from its top |
| Screen.ViewStays | internal/server/screen.go:386-400 | Output that arrives while a view is scrolled back leaves the scrollback lines it shows in place |
| Screen.ViewWithin | internal/server/screen.go:386-400 | A view never goes beyond the scrollback, the alternate screen has none, and a live view stays live |
| Screen.ChangedAreTheDifferent | internal/server/screen.go:439-454 | A partial frame carries exactly the rows that differ, as they are now |
| Screen.ChangedFallInOrder | internal/server/screen.go:439-454 | From top to bottom |
| Screen.DiffThenPatch | internal/tui/live.go:398-417 | A client showing the last frame's rows shows exactly the new rows after the next frame, full or not, resized or not |
| ScreenStream.StepKeeps | internal/server/screen.go:178-194 | Every write, resize, wheel notch, key, exit, joining, leaving and stage of a frame keeps: a viewer whose client is not up to date has a kick waiting, is about to look, or has typed while scrolled back |
| ScreenStream.WheelMoves | internal/server/screen.go:341-367 | Three lines a notch, within the scrollback, with a kick; nothing when the child wants the mouse or is on the alternate screen |
| ScreenStream.WritersReachAll | internal/server/screen.go:274-309 | A resize asks every viewer for a full frame, a kick fills every slot |
| ScreenStream.ClientShowsScreen | internal/server/screen.go:475-509 | Over every run, keys included, with no writer mid-step, the kick slot empty and the viewer waiting, the rows its client rebuilt are the current snapshot, unless this viewer typed while scrolled back since its last one |
| ScreenStream.BitStaysClear | internal/server/screen.go:562-567 | A viewer that never types while scrolled back is never in that exception, whatever others type |
| ScreenStream.TypingWhileScrolled | internal/server/screen.go:562-567 | Typing into a scrolled view wakes nobody; the client is right exactly when the scrolled rows equal the live ones |
| ScreenStream.StaleAfterTyping | internal/server/screen.go:562-567 | A run from the start after which a client at rest shows a row that is no longer on its screen |
| ScreenViewer.PadRows | internal/server/screen.go:420-435 | Exactly h rows, each fitted in place, missing ones empty |
| ScreenViewer.DiffRows | internal/server/screen.go:439-454 | All rows when full or of another height, else exactly those that differ |
| ScreenViewer.ViewerObject.TurnWheel | internal/server/screen.go:341-367 | The viewer becomes what the model's wheel step makes of it, and is kicked when its view may have moved |
| ScreenViewer.ViewerObject.SnapshotFor | internal/server/screen.go:378-415 | The rows are the model's snapshot of this view, and the view follows the scrollback as there |
| ScreenViewer.ViewerObject.BuildFrame | internal/server/screen.go:458-471 | The frame is full exactly when asked for or the size changed, and then has every row; it and the viewer left behind are those of the model's snapshot and send steps |
| StrFilter.ChunksDoNotMatter | internal/server/strfilter.go:41-72 | Filtering any split of a stream and joining the pieces is filtering the whole |
| StrFilter.Idempotent | internal/server/strfilter.go:41-72 | Filtering twice is filtering once |
| StrFilter.KeptAtAreTheKept | internal/server/strfilter.go:41-72 | The output is the kept bytes in order, each named by its place in the input |
| StrFilter.OnlyStringBytesDropped | internal/server/strfilter.go:41-72 | A byte is dropped exactly when it is a non-ASCII byte inside a control string; all others pass untouched |
| StrFilter.ModeIsInside | internal/server/strfilter.go:41-83 | From the start of a stream, a byte is taken for part of a control string exactly when it comes after ESC and one of ] P _ ^ X with no ESC, BEL, CAN or SUB in between |
| StrFilter.FilteredByPosition | internal/server/strfilter.go:41-83 | So the output is the input, in order, without the non-ASCII bytes at such places |
| StrFilter.ParserInStepThroughout | internal/server/strfilter.go:41-83 | A parser that also ends strings at 0x9C is, at every byte of the output, where the filter is: no string ends early |
| StrFilter.UnfilteredInStepIff | internal/server/strfilter.go:41-83 | Without the filter it stays in step exactly when no byte inside a string is 0x9C |
| StrFilter.Filter.Write | internal/server/strfilter.go:41-72 | One call of the loop outputs the filtered chunk and leaves the state after it |
| TailScan.Rescan | internal/discovery/discovery.go:246-284 | Starting over on a larger window with what the smaller gave is one pass over the larger |
| TailScan.FoundIsFound | internal/discovery/discovery.go:246-284 | Once a prompt is found older lines do not matter |
| TailScan.BackFinds | internal/discovery/discovery.go:263-279 | The pass returns the time of the last prompt if there is one, of the last line that has a time, and the last entrypoint named from that prompt on |
| TailScan.ScanIsWholePassIff | internal/discovery/discovery.go:246-284 | Where the scan stopped at `off`, it agrees with one pass over the whole file exactly when a prompt was found, off is 0, or older lines add nothing |
| TailScan.ScanTail | internal/discovery/discovery.go:246-284 | The windows of 64 KiB, four times as much each, up to 16 MiB, terminate at a found prompt, the start of the file or the largest, and give what one pass over the lines of the last window gives |
| TailScan.SplitJoins | internal/discovery/discovery.go:258-262 | The pieces have no newline and, joined by newlines, are the text |
| AppendOnly.LineKeepsEntry | internal/discovery/discovery.go:208-241 | An entry that folds the complete lines before its offset still does after one more line, partial last lines left for later |
| AppendOnly.EntryAtEnd | internal/skills/transcript.go:64-84 | An entry whose offset has reached the last complete line folds the whole file |
| AppendOnly.PromptsGrow | internal/discovery/discovery.go:208-241 | Appending never lowers the number of prompts, so a reached cap stays reached |
| AppendOnly.LinesAreComplete | internal/discovery/discovery.go:222-232 | The complete lines, each ending in its only newline, are the text up to its last newline |
| AppendOnly.CountIs | internal/discovery/discovery.go:208-241 | The capped count is the number of complete lines that are prompts, or two if there are more |
| AppendOnly.PromptCounter.CountPrompts | internal/discovery/discovery.go:208-241 | Returns the smaller of PromptCap and the prompts in all complete lines, for any schedule of appends and reads |
| AppendOnly.AddNamesFirstOrder | internal/skills/transcript.go:92-101 | Names are duplicate-free, and of two names the one listed first comes first |
| AppendOnly.NamesInFirstListingOrder | internal/skills/transcript.go:44-101 | The same for a whole file: its names are the valid names of all its listings, in first-listing order |
| AppendOnly.AddDescsLast | internal/skills/transcript.go:103-113 | Of each known name the last description counts; unknown names get none |
| AppendOnly.DescribesIff | internal/skills/transcript.go:103-108 | A line describes a name exactly when it is the name after a dash, then a colon, a blank and the text, split at the first colon and blank |
| AppendOnly.SkillCache.Add | internal/skills/transcript.go:92-114 | One listing extends names and descriptions as the fold's step does |
| AppendOnly.SkillCache.FromTranscript | internal/skills/transcript.go:44-90 | Names and descriptions equal one fold over the whole file, for any schedule of appends and reads |
| Sessions.RunKeeps | internal/db/db.go:195-343 | In every reachable table auto-archived rows are archived, and ids and numbers are unique |
| Sessions.NumberedGives | internal/db/db.go:195-229 | Backfilling numbers every row, changes no number given and nothing else, and keeps numbers unique |
| Sessions.NumberedInOrder | internal/db/db.go:195-229 | Of two rows without a number the one first seen earlier gets the smaller |
| Sessions.LookupNext | internal/db/db.go:265-343 | What becomes of one session's row in any statement, with every right-hand side read on the old row |
| Sessions.NumberAndArchiveStay | internal/db/db.go:743-750 | Over any run a session keeps the number it was given, and the operator's own archive is undone by nothing but SetArchived(false) |
| Sessions.LastSeenNeverBack | internal/db/db.go:231-263 | Over any run of keeping or advancing upserts and whatever else, last_seen never moves back |
| Sessions.HeadlessStaysFiled | internal/db/db.go:310-324 | While a filed session stays headless, running does not unarchive it |
| Sessions.HeadlessNeverShows | internal/db/db.go:270-300 | A headless session known as such at its first hook is filed at once and stays so through any run in which it stays headless |
| Sessions.ResumeBringsBack | internal/db/db.go:314-330 | After any run without an archive by the operator, a session that runs interactively is back in the working set |
| Sessions.MarksProtect | internal/db/db.go:1144-1160 | Through any run a pinned session, or one in a project, is never swept away while it keeps the mark |
| Sessions.LookMakesSeen | internal/db/db.go:732-740 | A look makes the session seen, and clears an unread "done" and nothing else |
| Sessions.SeenStaysSeen | internal/db/db.go:732-740 | Through any run it stays seen until it is active later than the look |
| Sessions.UpsertGives | internal/db/db.go:265-335 | A known session takes the status and any entrypoint given, the later activity, and a last-seen time by the mode |
| Sessions.InsertGives | internal/db/db.go:265-335 | A new one takes the times given or now, counts as seen now, carries no marks, and is filed exactly when headless ones are to be hidden and it is one |
| Sessions.UpsertFlags | internal/db/db.go:306-330 | When an upsert hides a session in view, when it brings back an auto-archived one, and that it leaves the operator's archive |
| Sessions.ActivityMakesNew | internal/db/db.go:303-303 | Activity after the last look makes a session new |
| Sessions.NewIffActive | internal/db/db.go:265-335 | Through any run since a look without other activity, an upsert makes it new exactly when it brings activity after the look |
| Sessions.HeadlessIsLike | internal/model/model.go:168-172 | The prefix test, the pattern that ignores case, and an input on which they differ |
| Sessions.TouchGives | internal/db/db.go:337-343 | Status and last-seen time are set, and only the auto-archive is lifted |
| Sessions.OperatorArchives | internal/db/db.go:743-750 | The flag becomes what the operator says, as the operator's own |
| Waits.RowTellsHistory | internal/db/db.go:673-709 | At any point of any history, what TurnWait would report equals the latest declaration since the later of the last prompt and the last Stop, or none |
| Waits.LatestIsStanding | internal/db/db.go:691-709 | The declaration so defined is the only one that no later declaration, prompt or Stop of its session follows |
| Waits.StopShowsDeclaration | internal/server/server.go:927-947 | After a Stop the row shows the attention the standing declaration calls for, or an unread "done" |
| Waits.StopMarkIs | internal/server/attention.go:62-73 | "answer" and "action" leave "needs_you" with their label and the note, cut to 120 bytes in whole characters; anything else an unread "done" |
| Waits.LabelsAre | internal/model/model.go:130-147 | The labels of the four kinds, and none for others |
| Waits.DeclarationIsStored | internal/db/db.go:673-689 | The kind and note are stored afresh, an empty kind clears both |
| Waits.TurnEndMarksOrClears | internal/db/db.go:694-709 | The end of a turn marks a fresh declaration and keeps it, and clears a marked one |
| Waits.HalvesAreOne | internal/db/db.go:694-709 | With nothing in between, the two statements that end a turn are the one step |
| Waits.LateDeclarationKeptIff | internal/db/db.go:694-709 | A declaration made between them is reported at the next Stop exactly when the session had none before |
| Waits.NeedsYouStays | internal/server/attention.go:16-31 | "needs_you" stays with its reason through any other events, being looked at included, until a prompt or a Stop of its session, or until a tool hook, a notification or the screen watcher marks or clears it |
| Waits.DeclaredNeedCleared | internal/server/attention.go:98-102 | A finished tool clears what a declaration called for, before any prompt |
| Waits.StopCrossedByPrompt | internal/server/server.go:927-947 | A prompt between a Stop's last two statements is followed by the Stop's mark, on an active session |
| Waits.UnsplitHandlers | internal/server/server.go:664-681 | With nothing between their statements, the handlers are the single steps of the histories |
| Waits.Fitting | internal/server/server.go:1031-1039 | The longest run of whole characters that fits the byte limit |
| SessionDatabase.Database.UpsertSession | internal/db/db.go:265-335 | No other session changes; a new one comes last with a number above all others; a known one keeps its number, marks, declaration and attention, and its last-seen time moves as the mode allows |
| SessionDatabase.Database.SweepArchive | internal/db/db.go:1144-1160 | Exactly the unarchived, unpinned sessions outside projects that are neither active nor idle and were last seen before the limit are archived, all others stay, and the count is theirs |
| SessionDatabase.Database.EndTurn | internal/db/db.go:694-709 | Reports the declaration read first, then marks or clears whatever is there by then |
| SessionDatabase.Database.Look | internal/db/db.go:734-740 | The two statements together are one MarkSeen step |
| SessionDatabase.Database.NumberOldSessions | internal/db/db.go:195-229 | The loop numbers rows as the recursive definition does |
| SessionDatabase.Database.HandleSessionStart | internal/server/server.go:550-576 | Resuming a session moves neither its last-seen time nor its last activity; without an id nothing happens |
| SessionDatabase.Database.HandleSessionEnd | internal/server/server.go:646-662 | Nor does ending it, which leaves it stopped |
| SessionDatabase.Database.HandleUserPrompt | internal/server/server.go:664-681 | Upsert, clear the attention, clear the declaration, with any other statements in between |
| SessionDatabase.Database.HandleStop | internal/server/server.go:927-947 | Upsert, read the declaration, mark or clear it, leave the attention it calls for, with any other statements in between |
| Projects.ListIs | internal/db/db.go:978-998 | The list is the only arrangement of the rows that rises by order number and name |
| Projects.ArrangedIsPermutation | internal/db/db.go:1002-1026 | The new order is a permutation of all projects: named before others, the named by first mention, the rest as before |
| Projects.RenumberedLists | internal/db/db.go:1027-1038 | Renumbering by a full order makes the list exactly that order |
| Projects.ProjectTables.EnsureProject | internal/db/db.go:955-972 | A new project comes first in the list and the others follow as before; an existing one changes nothing |
| Projects.ProjectTables.SetProject | internal/db/db.go:945-953 | The session is in the project, which exists; other sessions are untouched |
| Projects.ProjectTables.SetProjectOrder | internal/db/db.go:1002-1038 | Fails exactly when a name is unknown, then changing nothing; else the list becomes the arranged order |
| Projects.ProjectTables.MoveProject | internal/db/db.go:1042-1065 | The list becomes the old one with the project taken out and put in at the clamped place |
| Projects.MoveAndBackIff | internal/db/db.go:1040-1065 | A move followed by its opposite is the identity exactly when the ends do not cut it short or it starts at the end it leads away from |
| Projects.MoveIs | internal/db/db.go:1042-1065 | The project ends up as many places further as the list allows, and the others keep their order |
| Order.LessIff | internal/db/db.go:985-985 | Names are compared where they first differ, a proper beginning comes first |
| Projects.ProjectTables.RenameProject | internal/db/db.go:1070-1103 | Both tables are reassigned; in a merge the list loses just the old name, else the row keeps its place and colour; every session's project still exists |
| Projects.MergeLosesNobody | internal/db/db.go:1095-1100 | After reassigning, the new name has exactly the members of both, the old none, and all others are where they were |
| Bucket.TokensInRange | internal/server/ratelimit.go:32-47 | Tokens stay between nothing and the capacity |
| Bucket.AllowedIsBest | internal/server/ratelimit.go:32-47 | In any window at most burst + qps times its length is granted, and no other selection of the same calls that meets this is ahead in any prefix |
| Bucket.TokenBucket.Allow | internal/server/ratelimit.go:32-47 | The decision is the next one of the greedy grants over all calls so far |
| Windows.PassesIff | internal/hub/intakeapps.go:148-164 | A call passes exactly when fewer than the limit of all those ever counted are younger than the window |
| Windows.AtMostMaxInAnyWindow | internal/hub/intakeapps.go:148-164 | Any limit + 1 counted calls in a row span at least the window |
| Windows.ThirtyAnHour | internal/hub/intakeapps.go:148-164 | In any hour at most 30 requests of an app are accepted, however those of other apps come in between |
| Windows.TurnedAwayAtThirty | internal/hub/intakeapps.go:148-164 | A request is turned away exactly when thirty were accepted in the hour before |
| Windows.FiveInTenMinutes | internal/hub/breakglass.go:32-54 | Of compared wrong guesses the sixth from any is ten minutes later; the door is locked exactly when five were in the last ten minutes |
| Windows.KeptAre | internal/hub/breakglass.go:36-42 | What compaction keeps is each time after the cut, as often as it was there |
| Windows.Compact | internal/hub/breakglass.go:36-42 | In place, the unexpired times move to the front in order |
| Windows.Door.Check | internal/hub/breakglass.go:32-54 | Opens exactly for the right password with fewer than five recent wrong guesses, is locked exactly with five; only wrong guesses that were compared are counted |
| Windows.Intake.Allow | internal/hub/intakeapps.go:148-164 | Each app is limited by its own requests alone |
| Drafts.KeepsNewest | internal/hub/intakeapps.go:472-476 | On the lists alone: additions that each see what the one before left keep the newest drafts of all, newest first |
| Drafts.AddSameIff | internal/hub/intakeapps.go:472-476 | Adding to two stored lists gives the same exactly when the same drafts stay beside the new one |
| DraftStore.AdditionKeepsIff | internal/hub/intakeapps.go:465-478 | Over any run of the store, an acknowledged addition leaves what adding to the list it overwrote would have, exactly when the list it had read has the same drafts beside the new one |
| DraftStore.StoreKeepsNewest | internal/hub/intakeapps.go:462-478 | Made one at a time by the only replica that writes them, with a cache that never steps back, acknowledged additions leave the newest of all, whatever else happens to the document |
| DraftStore.AcknowledgedDraftLost | internal/hub/k8sstore.go:283-310 | A run on one replica in which an acknowledged draft is gone after the next acknowledged addition |
| Drafts.StableSortSorts | internal/hub/intakeapps.go:473-476 | Newest first, and nothing lost |
| Restart.EndsOnce | internal/server/restartwait.go:52-154 | In any run a schedule ends at most once, so a cancelled or expired one never fires |
| Restart.DeadlineMovesLater | internal/server/restartwait.go:64-71 | While a schedule is pending its deadline only moves later, and who asked and when stay |
| Restart.DeadlineIsLatestAsked | internal/server/restartwait.go:52-82 | A pending schedule waits exactly until the latest deadline any request for it asked for |
| Restart.FiresIff | internal/server/restartwait.go:103-154 | A look fires exactly when a schedule is pending, it is not past the deadline, nothing is busy, and a stretch of looks spanning the quiet time was clear throughout; it gives up exactly when it is past the deadline |
| Restart.TimeoutIs | internal/server/restartwait.go:52-57 | Two hours by default, the minutes asked for, a day at most; quiet is four seconds |
| Restart.ScheduleDoes | internal/server/restartwait.go:62-78 | A new schedule has its request's deadline; a pending one only a later one |
| Restart.LastSays | internal/server/restartwait.go:86-150 | What is reported of a schedule that has ended, and when |
| Restart.Restarter.ScheduleRestart | internal/server/restartwait.go:52-82 | Starts or extends as the model's step does |
| Restart.Restarter.CancelScheduled | internal/server/restartwait.go:86-100 | Nothing is pending afterwards, and the answer is whether something was |
| Restart.Restarter.LookOnce | internal/server/restartwait.go:110-152 | One turn of the loop is one look; it ends the loop exactly when nothing is pending any more |
| Shell.CommandLineRoundTrips | internal/attach/cmd.go:13-29 | The shell reads the printed line back as "claude" and exactly the arguments, if and only if none holds a NUL |
| Shell.ReadsArg | internal/attach/cmd.go:27-29 | One quoted argument, whatever follows it, is read as one word, empty ones included |
| Shell.ViaShell | internal/attach/cmd.go:13-24 | Without a shell claude is started directly; with one, through -i -c and a line that reads back as the arguments |

## Left out

- Of the replicated store: `ensureLocalDevice`, `listDevices`, `deviceByToken`, `listSubs` and secret deletion.
- The Kubernetes API, JSON and base64: the Secret is a versioned cell, and encoding a document and decoding it again is taken to give it back.
- Token hashing, random ids, clocks and passwords' constant-time comparison are parameters; new device ids are assumed fresh.
- HTTP handlers, authentication, yamux sessions, WebSockets, PTYs, signals, tmux, git and self-update.
- `conn`'s forced refresh with its rate limit, and the `remote` connection cache of the cluster.
- A drop message is delivered or not yet delivered; a message lost for ever is one still in flight.
- The raw relay, trace, cursor, exit text and encoding errors of screen frames; display widths (fitting a row is a parameter).
- 8-bit introducers of control strings; the filter's reused output buffer is a value.
- `tailTimes`' cache by modification time; the line parsers are parameters.
- AppendOnly.SkillCache.FromTranscript: models files that only grow; a file that shrank starts a new cache, and one that cannot be read has no answer.
- Columns an upsert only copies (directory, repository, title and so on), colours, favourites' order, group and number of tasks.
- Database errors.
- Waits.StopShowsDeclaration: takes a Stop's statements as one step; what comes of others in between is StopCrossedByPrompt and LateDeclarationKeptIff.
- The tool hooks, notifications and the screen watcher appear only as the marks they set and clear.
- Projects.ProjectTables.SetProjectOrder: takes reading the list and the transaction after it as one step.
- Projects.ProjectTables.MoveProject: likewise.
- The checks, redaction and cut a declaration goes through before it is stored; trimming the name of who asked for a restart.
- A deletion between additions of drafts: then an older draft may already have been cut. How drafts are written as text is a parameter.
- A device's tokens are followed on one replica at a time, apart from the tunnels' start times.
- Restart.FiresIff: takes a look as one step, and assumes that a cancelled wait loop never looks again; the loop's select may take the tick when the tick and the cancellation are both ready, and would then meet a new schedule with its own old quiet time.
- Machine integers are unbounded (time.Duration, SQLite's 64 bits), and the bucket's floats are real numbers.
- Shells that do not follow POSIX quoting (fish, csh), aliases and functions named claude; `SafeEnv`.
- Tunnels.AtMostOneTunnel: asks that tunnels are registered in time, which the code does not ensure; what holds without that is SecondTunnelCameLate.
- TouchSession and the plain handlers of the session table are modelled, but each says no more than its statement; the first has no caller in the repository.

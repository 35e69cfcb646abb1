# EventService, modelled in Dafny

EventServiceDemo is a Unity client-side analytics buffer. Game code tracks
`{type, data}` events through `EventService.TrackEvent`, usually via the
`EventServiceUtility` helpers. The service keeps them in an ordered session
list and backs that list up to `eventServiceStorage.dat` every N-th event.
A single coroutine waits out a fixed cooldown and then posts the whole
session to the collector. On success it removes exactly the posted prefix.
After every attempt it stores the session and re-arms itself if events
remain. On start the session is restored from the file: a missing, corrupt
or `null` file gives an empty session. Quitting, or losing focus on Android,
only stores the session.

The model has four modules:

- `Session` (`session.dfy`): `EventData`, `SessionData`, and the JSON text
  as an abstract datatype. It holds the serialise/deserialise pair and the
  restore rules: `Load` and `Restore` as intended, and `LoadAsWritten`, which
  follows the source exactly (see Findings).
- `Scheduler` (`scheduler.dfy`): the service's lifecycle as a state machine.
  The routine is `Idle`, `Debouncing(remaining)` or `Sending(count, body)`.
  The inputs are Track, Tick (time passes), SendCompleted(ok) and Quit. The
  module has one transition function per source operation and an invariant
  `Inv` that every transition keeps. Lemmas over arbitrary runs prove:
  no loss and no duplication within one process lifetime, prefix-only
  removal, single flight, the fixed cooldown window, retry after failure, restore after restart, and the
  backup window: between inputs, when every store completes, restarting
  from the file loses fewer than N events.
- `Service` (`service.dfy`): `class EventService`. Its fields are the
  session list, the routine and the storage file. Its methods are the
  source's methods plus the two points where the coroutine resumes
  (`AdvanceTime` after the `WaitForSeconds`, `RequestCompleted` after the
  web request). Restoring uses the corrected `Load` (see Findings). Every
  method except the private helpers `RestoreSession`, `StoreSession` and
  `CheckForUnsentEvents` keeps `Valid()`; every method equals the matching
  `Scheduler` transition, so the run lemmas apply to the class.
- `Utility` (`utility.dfy`): the three helper event kinds and their
  `param:value` data strings. An inverse (`SplitAtColon`, `ParseInt`) shows
  that the parameter name and the integer value can be read back.

`RemoveRange(0, count)` can never throw in the model. `Inv` keeps the
in-flight count at most the list length, because only appends happen while
a request is in flight.

Two details of the code matter for the model:

- The periodic backup tests the current list length
  (`Count % backupEachNumberOfEvents == 0`), not a count of calls. After a
  send removes events, the backups fall on different calls.
  `CrashLosesLessThanBackupPeriod` shows the file still stays fewer than
  N events behind.
- A store that fails is not caught in the code. The model treats every
  write as succeeding (see Left out).

## Model

| member | source | states |
|---|---|---|
| `Session.Serialize` | Assets/Scripts/EventServiceDemo/EventService.cs:156 | deserialising the written text gives the same session back; it is never the `null` literal or unreadable text |
| `Session.Deserialize` | Assets/Scripts/EventServiceDemo/EventService.cs:137 | it throws exactly on unreadable text, and gives a null session exactly for the literal `null` |
| `Session.Snapshot` | Assets/Scripts/EventServiceDemo/EventService.cs:184 | the text written for a list of events deserialises to a session holding exactly that list |
| `Session.Load` | Assets/Scripts/EventServiceDemo/EventService.cs:132-146 | restoring a text gives a non-empty list only when the text is the snapshot of exactly that list; a snapshot always restores to its list; everything else (exception, null session, null list) gives an empty session |
| `Session.Restore` | Assets/Scripts/EventServiceDemo/EventService.cs:121-147 | a missing file gives an empty session; otherwise as `Load`; a stored snapshot restores exactly |
| `Session.LoadAsWritten` | Assets/Scripts/EventServiceDemo/EventService.cs:137 | as written: the restored list is null exactly when the text is a session object whose list is null; a snapshot restores to exactly its list; unreadable text and the `null` literal give an empty list; a non-empty restored list comes only from the snapshot of that list |
| `Session.AddAsWritten` | Assets/Scripts/EventServiceDemo/EventService.cs:104 | `List.Add` succeeds exactly on a non-null list and appends the event at the end |
| `Session.NullListSurvivesRestore` | Assets/Scripts/EventServiceDemo/EventService.cs:137 | `{"events": null}` restores, as written, to a null list: the next `TrackEvent` fails, and a store writes the null list back; the corrected `Load` gives an empty session |
| `Session.LoadAgreesWhereListRestored` | Assets/Scripts/EventServiceDemo/EventService.cs:132-146 | the corrected restore agrees with the source on every text where the source yields a list |
| `Scheduler.Store` | Assets/Scripts/EventServiceDemo/EventService.cs:151-160 | after a store the file restores to exactly the pending events; nothing else changes |
| `Scheduler.CheckForUnsent` | Assets/Scripts/EventServiceDemo/EventService.cs:162-171 | a routine is armed, with the full cooldown, only when events are pending and none is running; a running routine is never replaced or reset |
| `Scheduler.TrackStep` | Assets/Scripts/EventServiceDemo/EventService.cs:102-117 | the event is appended at the end and earlier events are unchanged; the file is overwritten with the new list iff `N != 0` and the new length is a multiple of N, and is otherwise untouched; an idle service arms with the full cooldown; a debouncing or sending routine is left exactly as it was |
| `Scheduler.TickStep` | Assets/Scripts/EventServiceDemo/EventService.cs:178-187 | a waiting routine keeps waiting with less time left, or, once its time is up, posts exactly the whole session and records its length; nothing else changes |
| `Scheduler.CompleteStep` | Assets/Scripts/EventServiceDemo/EventService.cs:191-211 | on success exactly the first `count` events are removed and the collector gets the posted events; on failure the session is unchanged; either way the file then restores to the session, and the routine is idle iff the session is empty, otherwise re-armed with the full cooldown |
| `Scheduler.StartState` | Assets/Scripts/EventServiceDemo/EventService.cs:121-149 | the session is what the file restores to; the routine is armed with the full cooldown iff that session is non-empty |
| `Scheduler.BackupTestBySize` | Assets/Scripts/EventServiceDemo/EventService.cs:111 | for a non-zero period the backup test holds exactly when the length is a multiple of the period's size, whatever its sign |
| `Scheduler.StartEstablishesInv` | Assets/Scripts/EventServiceDemo/EventService.cs:121-149 | whatever the file holds, the service restored under the corrected restore satisfies the invariant |
| `Scheduler.TrackPreservesInv` | Assets/Scripts/EventServiceDemo/EventService.cs:102-117 | tracking keeps the invariant: an in-flight batch stays a prefix, and the file stays a prefix less than one backup period behind |
| `Scheduler.TickPreservesInv` | Assets/Scripts/EventServiceDemo/EventService.cs:178-187 | resuming after the cooldown keeps the invariant: the posted batch is a non-empty prefix, namely the whole session |
| `Scheduler.CompletePreservesInv` | Assets/Scripts/EventServiceDemo/EventService.cs:195-211 | finishing a send keeps the invariant |
| `Scheduler.NextPreservesInv` | Assets/Scripts/EventServiceDemo/EventService.cs:102-211 | every input keeps the invariant |
| `Scheduler.RunPreservesInv` | Assets/Scripts/EventServiceDemo/EventService.cs:102-211 | every run of inputs keeps the invariant |
| `Scheduler.NextNoLoss` | Assets/Scripts/EventServiceDemo/EventService.cs:195-197 | one input neither loses nor duplicates an event: acknowledged events followed by pending events only grow by the tracked event |
| `Scheduler.NoLoss` | Assets/Scripts/EventServiceDemo/EventService.cs:102-211 | over any run, acknowledged events followed by pending events equal the earlier ones followed by everything tracked, in order |
| `Scheduler.FixedCooldown` | Assets/Scripts/EventServiceDemo/EventService.cs:167-178 | from arming, the routine posts when the elapsed time reaches the cooldown and not before, whatever is tracked or stored meanwhile |
| `Scheduler.InFlightUntilCompleted` | Assets/Scripts/EventServiceDemo/EventService.cs:167-191 | while a request is in flight, no input except its completion changes the routine: no second routine starts, and the batch is fixed |
| `Scheduler.TracksOnlyAppend` | Assets/Scripts/EventServiceDemo/EventService.cs:102-117 | tracking while a routine runs only appends, in order, and leaves the routine alone |
| `Scheduler.SendRemovesPostedPrefix` | Assets/Scripts/EventServiceDemo/EventService.cs:183-197 | after a successful send, the events tracked during the send follow the unsent rest, in order, and the collector gets exactly the posted prefix |
| `Scheduler.FailedSendIsRetried` | Assets/Scripts/EventServiceDemo/EventService.cs:200-211 | a failed send keeps and stores every event and re-arms the full cooldown; once that has passed, the next request posts all of them again, in order |
| `Scheduler.QuitOnlyStores` | Assets/Scripts/EventServiceDemo/EventService.cs:73-84 | quitting stores the pending events and changes neither the session nor the routine |
| `Scheduler.RestartRestoresPending` | Assets/Scripts/EventServiceDemo/EventService.cs:81-149 | quitting and starting again restores exactly the pending events, in order, and arms a routine iff there are any |
| `Scheduler.CrashLosesLessThanBackupPeriod` | Assets/Scripts/EventServiceDemo/EventService.cs:107-114 | between inputs, when every store completes, the file restores to a prefix of the pending events that lacks fewer than `|N|` of them |
| `Service.EventService.constructor` | Assets/Scripts/EventServiceDemo/EventService.cs:52-68 | the new service is the restored start state and satisfies the invariant |
| `Service.EventService.RestoreSession` | Assets/Scripts/EventServiceDemo/EventService.cs:121-149 | the session and the routine become the start state for the stored file |
| `Service.EventService.StoreSession` | Assets/Scripts/EventServiceDemo/EventService.cs:151-160 | the file is overwritten so that it restores to the pending events |
| `Service.EventService.CheckForUnsentEvents` | Assets/Scripts/EventServiceDemo/EventService.cs:162-171 | the routine changes as `CheckForUnsent` says |
| `Service.EventService.TrackEvent` | Assets/Scripts/EventServiceDemo/EventService.cs:102-117 | appends exactly the one event at the end and changes the state as `TrackStep` says, keeping the invariant |
| `Service.EventService.AdvanceTime` | Assets/Scripts/EventServiceDemo/EventService.cs:173-191 | the coroutine's resumption after its cooldown, as `TickStep` says, keeping the invariant |
| `Service.EventService.RequestCompleted` | Assets/Scripts/EventServiceDemo/EventService.cs:191-211 | on success removes exactly the first `count` events, otherwise none; then changes the state as `CompleteStep` says, keeping the invariant |
| `Service.EventService.OnApplicationQuit` | Assets/Scripts/EventServiceDemo/EventService.cs:81-84 | stores the session and changes nothing else |
| `Service.EventService.OnApplicationFocus` | Assets/Scripts/EventServiceDemo/EventService.cs:73-79 | losing focus stores the session; gaining it changes nothing |
| `Utility.IntToString` | Assets/Scripts/EventServiceDemo/Utility/EventServiceUtility.cs:19 | the decimal text of an integer has no `:` and parses back to the integer |
| `Utility.NatToString` | Assets/Scripts/EventServiceDemo/Utility/EventServiceUtility.cs:29 | a natural number prints as at least one decimal digit, with a leading `0` only for zero itself |
| `Utility.NatToStringParses` | Assets/Scripts/EventServiceDemo/Utility/EventServiceUtility.cs:29 | the decimal digits of a natural number have that number as their value |
| `Utility.SplitAtColon` | Assets/Scripts/EventServiceDemo/Utility/EventServiceUtility.cs:36 | splitting a data string at its first `:` gives a `:`-free prefix and the rest, which recompose to the string; no split means there is no `:` |
| `Utility.SplitComposed` | Assets/Scripts/EventServiceDemo/Utility/EventServiceUtility.cs:34-37 | `param:value` with a `:`-free parameter splits back into exactly that parameter and value |
| `Utility.ParamEvent` | Assets/Scripts/EventServiceDemo/Utility/EventServiceUtility.cs:34-37 | the event has the given type, and its data splits at the first `:` into the parameter name and the value |
| `Utility.LevelStartEvent` | Assets/Scripts/EventServiceDemo/Utility/EventServiceUtility.cs:17-20 | type `levelStart`; the `level` parameter reads back as the level |
| `Utility.RewardClaimEvent` | Assets/Scripts/EventServiceDemo/Utility/EventServiceUtility.cs:22-25 | type `rewardClaim`; the `rewardBundle` parameter is the bundle verbatim, even when it contains `:` |
| `Utility.CoinsSpendingEvent` | Assets/Scripts/EventServiceDemo/Utility/EventServiceUtility.cs:27-30 | type `coinsSpending`; the `coinNumber` parameter reads back as the number |
| `Utility.TrackParamEvent` | Assets/Scripts/EventServiceDemo/Utility/EventServiceUtility.cs:34-37 | forwards exactly one `TrackEvent` with data `param:value` |
| `Utility.TrackLevelStart` | Assets/Scripts/EventServiceDemo/Utility/EventServiceUtility.cs:17-20 | tracks exactly the one `levelStart` event |
| `Utility.TrackRewardClaim` | Assets/Scripts/EventServiceDemo/Utility/EventServiceUtility.cs:22-25 | tracks exactly the one `rewardClaim` event |
| `Utility.TrackCoinsSpending` | Assets/Scripts/EventServiceDemo/Utility/EventServiceUtility.cs:27-30 | tracks exactly the one `coinsSpending` event |

## Left out

- File I/O: the storage file is a field holding an abstract text. Read errors count as unreadable text. Writes always succeed. The code does not catch a failed write: in `TrackEvent` the exception would reach the caller, and in the coroutine it would leave `sendingRoutine` set for good. Neither case is modelled.
- JSON: texts are the abstract datatype `Json`. Character-level encoding, escaping and other object shapes are not modelled. The round trip is proved only for this abstraction.
- Networking: `UnityWebRequest`, the form field `data` and `ResolveUri` with its debug URLs are not modelled. The request's outcome is the `success` argument of `RequestCompleted`, and the posted body is the session text.
- Timing: real seconds and frames are left out. Time passes in whole units through `AdvanceTime`/`Tick`, and a waiting routine resumes on the first tick at which its cooldown has run out.
- Scheduler.StartState / Service.EventService.RestoreSession: the scheduler and the class restore with the corrected `Load` (see Findings). A stored null list therefore gives an empty, idle service, where the source throws at EventService.cs:148; the as-written restore is `Session.LoadAsWritten`.
- Scheduler.NoLoss: no loss and no duplication are proved within one process lifetime only. Quitting while a request is in flight stores the in-flight batch too (EventService.cs:81-84); if the collector accepted that batch before the process ended, the next start restores it (lines 125-148) and posts it again. Runs across restarts are not modelled.
- Scheduler.CrashLosesLessThanBackupPeriod: a crash during a store is not modelled. `new StreamWriter(storageFilePath)` (EventService.cs:154) truncates the file before `Write`, so a crash in between leaves an empty or partial file, which restores to an empty session; the lemma covers crashes between inputs, when every store has completed.
- Scheduler.FixedCooldown: when the cooldown is zero or negative, a tick of length zero also fires the routine. The lemma does not cover that case; `TickStep` does.
- Singleton plumbing: `Instance`, its exception and the `Assert` in `Awake` are not modelled. The helpers take the service as a parameter.
- Calling `TrackEvent` before `Start`, when the session is still null, is not modelled. The constructor runs `Awake` and `Start` together.
- `int.ToString()` is modelled with the invariant culture (`-` as the minus sign). `ParseInt` is a reference inverse used to state the round trip; it does not model `Convert.ToInt32` in the UI.
- Null strings: C# strings may be null, Dafny strings cannot. `TrackRewardClaim(null)` stores the data `rewardBundle:`, the same as an empty bundle, and `TrackEvent(null, null)` stores an event with null fields; the model covers non-null strings only.
- Logging (`DebugUtility`), the UI (`PopupController`) and the WebGL unload bridge (`WebGLEventHandler`) are not modelled. The bridge matters only as a caller of `OnApplicationQuit`.

## Findings

| source | as written | input that shows it | evidently intended | confidence | as-written member | corrected member |
|---|---|---|---|---|---|---|
| Assets/Scripts/EventServiceDemo/EventService.cs:137 | only a null session is replaced (`?? new SessionData {...}`); a session object whose `events` list is missing or null is kept | a storage file containing `{}` or `{"events": null}`: it parses without an exception, `session.events` is null, `CheckForUnsentEvents` and every `TrackEvent` then throw, and a store writes the null list back, so every later start fails the same way | unreadable or unusable stored data gives a fresh, empty session (the comment at lines 143-145) | medium, not executed; relies on the JSON library leaving a missing or null list member null | `Session.NullListSurvivesRestore` | `Session.Load` |

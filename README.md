# VRCore discrete logic, modelled in Dafny

VRCore is a Unity bicycle-riding simulation. This project models the small
pieces of discrete logic in it, with the engine calls taken out, and proves
what they promise:

- `TrafficLights` (`traffic_light.dfy`): the traffic light's Red/Yellow/Green
  phase machine. It remembers the last primary (Red or Green) state. A timer
  starts a transition through Yellow to the opposite primary state. It keeps an
  array of light blockers in which only the current state's blocker is hidden,
  and it sends one change notification per state write.
- `MirrorTrafficLights` (`mirror_traffic_light.dfy`): the mirrored blocker
  display and its relay from the light.
- `Waypoints` (`waypoints.dfy`): the waypoint index walk in Ascending,
  Descending or Loop order, with a turnaround at each end.
- `SignalStopping` (`signal_stopping.dfy`): the bicycle's latch on the first
  traffic-light stopper it enters, and the Stop/Resume commands it issues.
- `SpeedReceiving` (`speed_receiver.dfy`): the speed receiver's main-thread
  frame. It has a simulate override, a queue drain where the last speed wins,
  and a decay after a timeout that is clamped at zero. The `speedKph`
  property is `SpeedReceiver.SpeedKph`, which returns `latestSpeed` as is.
- `DataRecording` (`data_recording.dfy`): the telemetry sampler. It has a
  recording toggle, rate-limited appends to an insertion-ordered map with
  unique timestamp keys, and the spreadsheet layout written on stop.
- `TextureGuidChecker` (`texture_guid_checker.dfy`): the editor tool's text
  processing. It covers the texture `.meta` filter, first-match guid
  extraction, the guid → asset path map, and the material-file scanner with
  its look-ahead of at most nine lines and its stop rules.
- `Text` and `Options` (`text.dfy`): the ordinal .NET string operations these
  use (`Trim` with the full `Char.IsWhiteSpace` set, `StartsWith`,
  `EndsWith`, `Contains`, `Split(char)`, `Replace`), and an `Option` type.

Engine state becomes fields. `Time.time`, `Time.deltaTime`, the formatted
`DateTime.Now`, the bicycle's speed and the "waypoint reached" test are
parameters. The `GameObject.SetActive` flags are `array<bool>` fields. The
`OnLightChanged` event is a `notifications` sequence that each invocation
appends to. Floats are `real`. The yellow-light coroutine is two steps:
`Update` runs its first half, and `ResumeTransition` is what the engine runs
0.5 s later.

## Model

| member | source | states |
|---|---|---|
| TrafficLights.BlockerPatternHidesOnlyCurrent | Assets/Scripts/TrafficLight.cs:37-44 | with three blockers, exactly the one at (int)state is hidden (Red=0, Yellow=1, Green=2), and each state has its own pattern |
| TrafficLights.ChangeStateRemembersPrimary | Assets/Scripts/TrafficLight.cs:28-35 | ChangeState shows the new state; Red or Green becomes the remembered primary state; Yellow leaves the memory unchanged |
| TrafficLights.TransitionFlipsPrimary | Assets/Scripts/TrafficLight.cs:71-85 | a transition first shows Yellow, then ends on Green when Red was remembered and on Red when Green was |
| TrafficLights.TransitionFromYellowMemoryStaysYellow | Assets/Scripts/TrafficLight.cs:77-84 | a light whose remembered state is Yellow stays Yellow, because neither branch fires |
| TrafficLights.TransitionsAlternate | Assets/Scripts/TrafficLight.cs:71-85 | after n complete transitions the light shows its remembered state; an even n gives back the original primary and an odd n the opposite one, so two transitions restore it |
| TrafficLights.TrafficLight.constructor | Assets/Scripts/TrafficLight.cs:8-16 | its state is Red, it remembers Red, has no notifications and no pending transition |
| TrafficLights.TrafficLight.ChangeSignal | Assets/Scripts/TrafficLight.cs:37-44 | every blocker is written, only the one at (int)state is inactive, and exactly one notification carrying the state is appended |
| TrafficLights.TrafficLight.SetState | Assets/Scripts/TrafficLight.cs:18-26 | a write to State stores the value, sets the blockers for it and sends exactly one notification with it |
| TrafficLights.TrafficLight.ChangeState | Assets/Scripts/TrafficLight.cs:28-35 | the new phase is ChangeStatePhase of the old one; the blockers show the new state; one notification is sent |
| TrafficLights.TrafficLight.ChangeStateToTestLightState | Assets/Scripts/TrafficLight.cs:46-50 | same as ChangeState with the inspector's test state |
| TrafficLights.TrafficLight.Start | Assets/Scripts/TrafficLight.cs:52-56 | the timer starts now and the current state, Yellow included, becomes the remembered one |
| TrafficLights.TrafficLight.Update | Assets/Scripts/TrafficLight.cs:58-69 | a transition starts iff automatic switching is on and at least waitTime has passed. Starting one resets the timer to now, shows Yellow and sends one notification. Otherwise nothing changes, including when automatic switching is off |
| TrafficLights.TrafficLight.ResumeTransition | Assets/Scripts/TrafficLight.cs:74-85 | the second half of a transition moves to the opposite primary with one notification, or changes nothing when Yellow is remembered |
| TrafficLights.RunCycle | Assets/Scripts/TrafficLight.cs:58-85 | a due light remembering Red goes Yellow then Green, shows Green, announces both in that order and stamps the change time with now; wait time, auto mode, test state and the pending-transition count are left as they were |
| MirrorTrafficLights.Blockers | Assets/Scripts/MirrorTrafficLight.cs:8-14 | the blocker array keeps its length, and slot i is active iff i != (int)state |
| MirrorTrafficLights.BlockersIdempotent | Assets/Scripts/MirrorTrafficLight.cs:8-14 | applying ChangeSignal twice with the same state gives the same array as once |
| MirrorTrafficLights.BlockersLastWriteWins | Assets/Scripts/MirrorTrafficLight.cs:10-13 | every slot is written, so only the last state matters |
| MirrorTrafficLights.MirrorTrafficLight.ChangeSignal | Assets/Scripts/MirrorTrafficLight.cs:8-14 | the slot at (int)state is inactive and every other slot is active, whatever the array held before |
| MirrorTrafficLights.ChangeStateMirrored | Assets/Scripts/MirrorTrafficLight.cs:10-13 | the light moves to the new state and shows it, and relaying its notification to a mirror with as many slots gives the mirror the new state's blocker pattern, the same as the light's; the light's timer, settings and pending transitions are left as they were |
| Waypoints.StartIndexInBounds | Assets/Scripts/WaypointMovement.cs:20-37 | with at least one waypoint, every order starts on a waypoint |
| Waypoints.Step | Assets/Scripts/WaypointMovement.cs:45-88 | one frame keeps an in-bounds index in bounds |
| Waypoints.StepNotReached | Assets/Scripts/WaypointMovement.cs:45-88 | when the waypoint is not reached, neither the index nor the order changes |
| Waypoints.StepLoop | Assets/Scripts/WaypointMovement.cs:56-65 | in Loop order a reached waypoint moves the index to (i + 1) mod len, and the order stays Loop |
| Waypoints.StepAscending | Assets/Scripts/WaypointMovement.cs:50-79 | Ascending from the last waypoint turns Descending and stays on index len-1; otherwise it moves on by one |
| Waypoints.StepDescending | Assets/Scripts/WaypointMovement.cs:53-87 | Descending from the first waypoint turns Ascending and stays on index 0; otherwise it moves back by one |
| Waypoints.StepKeepsLoop | Assets/Scripts/WaypointMovement.cs:48-88 | Loop is never entered or left in a frame |
| Waypoints.WalkInBounds | Assets/Scripts/WaypointMovement.cs:42-88 | over any number of frames the index stays on a waypoint, so both waypoint reads are safe, and Loop stays Loop |
| Waypoints.WalkLoopAllReached | Assets/Scripts/WaypointMovement.cs:56-65 | in Loop order, successive reached waypoints visit i+1, i+2, … and wrap to 0 after the last |
| Waypoints.WaypointMovement.Start | Assets/Scripts/WaypointMovement.cs:20-37 | the index becomes 0 for Ascending and Loop and len-1 for Descending, which is in bounds when there is a waypoint |
| Waypoints.WaypointMovement.Update | Assets/Scripts/WaypointMovement.cs:39-88 | the index and order become Step of the old ones, and the index stays in bounds |
| SignalStopping.CommandFor | Assets/Scripts/SignalStoppingVehicle.cs:37-45 | Red calls for Stop, Green for Resume and Yellow for nothing, in both directions |
| SignalStopping.EnterFirstWins | Assets/Scripts/SignalStoppingVehicle.cs:14-24 | an empty latch entering a collider tagged "Stopper" that carries a stopper takes that stopper's light; a latched light is kept on any entry, and a collider not tagged "Stopper" never changes the latch. A change happens only in the first case |
| SignalStopping.ReplayLatchesEnteredStopper | Assets/Scripts/SignalStoppingVehicle.cs:11-55 | after any trigger events the latch is empty, the initial light, or the light of a stopper that was entered; after a final exit it is empty |
| SignalStopping.SignalStoppingVehicle.constructor | Assets/Scripts/SignalStoppingVehicle.cs:6-7 | the latch starts empty |
| SignalStopping.SignalStoppingVehicle.OnTriggerEnter | Assets/Scripts/SignalStoppingVehicle.cs:11-30 | the latch becomes Enter of the old latch and the collider |
| SignalStopping.SignalStoppingVehicle.OnTriggerStay | Assets/Scripts/SignalStoppingVehicle.cs:31-48 | Stop is issued iff a light is latched, slowdown is on and the light is Red; Resume iff the same holds with Green; nothing without a latch or slowdown. The latch is never modified |
| SignalStopping.SignalStoppingVehicle.OnTriggerExit | Assets/Scripts/SignalStoppingVehicle.cs:51-55 | any exit clears the latch |
| SpeedReceiving.DecayedBounds | Assets/Scripts/SpeedReceiver.cs:66-75 | decay only happens when the timeout has passed and a speed has arrived (lastReceivedTime > 0). It never takes a positive speed below zero, never raises the speed when rate·dt ≥ 0, leaves a speed ≤ 0 alone, and gives max(0, s - rate·dt) |
| SpeedReceiving.StepSimulated | Assets/Scripts/SpeedReceiver.cs:49-53 | in simulate mode only the speed changes, to the simulated speed; the queue is not drained and nothing decays |
| SpeedReceiving.StepReceives | Assets/Scripts/SpeedReceiver.cs:55-68 | draining a non-empty queue empties it and stamps the receive time with now. With a non-negative timeout, the last value is kept without decay |
| SpeedReceiving.StepBeforeFirstSpeed | Assets/Scripts/SpeedReceiver.cs:66-68 | before the first speed arrives (receive time -1), a frame with an empty queue changes nothing |
| SpeedReceiving.SilentDecayBounded | Assets/Scripts/SpeedReceiver.cs:66-75 | over frames without new speeds, a non-negative speed only decreases and stays ≥ 0 |
| SpeedReceiving.SpeedReceiver.constructor | Assets/Scripts/SpeedReceiver.cs:13-27 | speed 0, receive time -1 and an empty queue; the timeout, decay rate and simulate settings are the inspector's (2 s and 5 km/h per s by default) |
| SpeedReceiving.SpeedReceiver.SpeedKph | Assets/Scripts/SpeedReceiver.cs:14 | the speedKph property always equals latestSpeed, the speed of the current reading |
| SpeedReceiving.SpeedReceiver.Start | Assets/Scripts/SpeedReceiver.cs:29-37 | simulation is on exactly when running in the editor, overriding the inspector setting |
| SpeedReceiving.SpeedReceiver.Enqueue | Assets/Scripts/SpeedReceiver.cs:97-100 | a parsed speed joins the end of the queue |
| SpeedReceiving.SpeedReceiver.Update | Assets/Scripts/SpeedReceiver.cs:47-76 | the loop drains the queue, and the new speed, receive time and queue are Step of the old ones |
| DataRecording.Add | Assets/Scripts/DataManager.cs:74-77 | appending under an absent key grows the map by one and puts the new entry last. Earlier entries are unchanged and the keys stay unique |
| DataRecording.LayoutRows | Assets/Scripts/DataManager.cs:116-133 | row 1 holds the three headers. Entry k (from 0) is on row k+2 as (key, sensor speed, bike speed). No other cells exist, so there are count+1 rows |
| DataRecording.DataManager.constructor | Assets/Scripts/DataManager.cs:12-17 | empty map, delay 1 s, not recording |
| DataRecording.DataManager.StartRecording | Assets/Scripts/DataManager.cs:39-42 | recording is on |
| DataRecording.DataManager.StopRecording | Assets/Scripts/DataManager.cs:43-48 | recording is off, and a sheet with the recorded rows is written unless nothing was recorded. The data is kept |
| DataRecording.DataManager.StartStopRecording | Assets/Scripts/DataManager.cs:50-62 | recording and the canvas toggle; going from on to off writes, going from off to on does not |
| DataRecording.DataManager.OnApplicationQuit | Assets/Scripts/DataManager.cs:84-90 | quitting while recording stops and writes; otherwise nothing is written |
| DataRecording.DataManager.Update | Assets/Scripts/DataManager.cs:64-82 | a sample is appended iff recording, now > lastRecordedTime + delay and the timestamp is absent, and then lastRecordedTime becomes now. Otherwise, including for a duplicate timestamp, the map and lastRecordedTime are unchanged. Keys stay unique |
| DataRecording.DataManager.WriteExcelFile | Assets/Scripts/DataManager.cs:93-133 | an empty map produces no sheet; otherwise the running row counter fills exactly the Layout sheet |
| TextureGuidChecker.ScanAheadFinds | Assets/Editor/MissingTextureGUIDChecker.cs:168-186 | the look-ahead finds guid g iff g is the value of the first "guid: " line of the window and every line before it passes the stop rule |
| TextureGuidChecker.TrimmedGuidLineHasValue | Assets/Editor/MissingTextureGUIDChecker.cs:170-177 | a trimmed line starting with "guid: " always has a non-empty trimmed remainder |
| TextureGuidChecker.PropertyHitWindow | Assets/Editor/MissingTextureGUIDChecker.cs:165-186 | line i records guid g for property p iff the trimmed line contains "p:", g is non-empty, and g is the value of the first guid line in lines i+1 .. min(i+10, n)-1 with only passable lines before it. That window has at most 9 lines |
| TextureGuidChecker.PropertyNamesDistinct | Assets/Editor/MissingTextureGUIDChecker.cs:137-150 | the eleven property names are distinct |
| TextureGuidChecker.ApplyPropertiesAt | Assets/Editor/MissingTextureGUIDChecker.cs:159-188 | one line's pass over the property names sets exactly the names scanned so far that the line hits, and leaves every other entry as it was |
| TextureGuidChecker.ParseLinesIsLastHit | Assets/Editor/MissingTextureGUIDChecker.cs:154-189 | the table holds a property name iff some line hits it, with the guid of the last such line |
| TextureGuidChecker.LastHitIsHit | Assets/Editor/MissingTextureGUIDChecker.cs:154-189 | the last hit is the hit of some line, and it is non-empty |
| TextureGuidChecker.ParsedTableShape | Assets/Editor/MissingTextureGUIDChecker.cs:132-192 | every key of the parsed table is one of the eleven property names and every value is non-empty |
| TextureGuidChecker.LookAhead | Assets/Editor/MissingTextureGUIDChecker.cs:168-186 | the look-ahead loop computes ScanAhead over the window i+1 .. min(i+10, n) |
| TextureGuidChecker.ParseTextureProperties | Assets/Editor/MissingTextureGUIDChecker.cs:132-192 | the nested loops compute ParsedProperties of the text; keys are property names and values are non-empty |
| TextureGuidChecker.TextureMetaPathIsMeta | Assets/Editor/MissingTextureGUIDChecker.cs:15-20 | every path the filter keeps ends in ".meta" |
| TextureGuidChecker.TextureMetaPaths | Assets/Editor/MissingTextureGUIDChecker.cs:15-20 | a path is kept iff it is listed and ends in one of the eight texture extensions followed by ".meta" |
| TextureGuidChecker.TextureMetaPathsKeepsOrder | Assets/Editor/MissingTextureGUIDChecker.cs:15-20 | the filter keeps listing order: the filtered concatenation of two listings is the concatenation of the filtered listings, and a single path is kept alone iff it is a texture meta path |
| TextureGuidChecker.ExtractGuidFirstMatch | Assets/Editor/MissingTextureGUIDChecker.cs:62-79 | the result is the trimmed remainder of the first line starting with "guid: ", and there is none iff no line starts with it |
| TextureGuidChecker.AssetPathOfMeta | Assets/Editor/MissingTextureGUIDChecker.cs:27 | removing the ".meta" suffix from a texture's meta path gives back the texture's path |
| TextureGuidChecker.AssetPathAsWrittenDropsInnerMeta | Assets/Editor/MissingTextureGUIDChecker.cs:27 | the source's Replace(".meta", "") maps "stem.meta.ext.meta" to "stem.ext", which is not the texture's path |
| TextureGuidChecker.GuidMapIsLastWriter | Assets/Editor/MissingTextureGUIDChecker.cs:22-31 | under either path rule (the source's Replace(".meta", "") or suffix removal), the map sends g to the path of the last meta file with guid g and has no other keys. Each key is a non-empty guid and each path starts with "Assets" |
| TextureGuidChecker.BuildGuidToPath | Assets/Editor/MissingTextureGUIDChecker.cs:13-31 | the loop over the filtered paths computes GuidMapOf for the given path rule (AsWritten is the source's map); every key is non-empty and every path starts with "Assets" |
| Text.Trim | Assets/Editor/MissingTextureGUIDChecker.cs:156 | a trimmed string neither starts nor ends with white space |
| Text.TrimIsInfix | Assets/Editor/MissingTextureGUIDChecker.cs:156 | Trim removes only white space, and only from the two ends |
| Text.TrimKeepsNonBlankEnd | Assets/Editor/MissingTextureGUIDChecker.cs:173-174 | a string ending in a non-blank character trims to a non-empty string |
| Text.ContainsOccurrence | Assets/Editor/MissingTextureGUIDChecker.cs:165 | Contains holds iff the value occurs at some position |
| Text.ContainsChar | Assets/Editor/MissingTextureGUIDChecker.cs:181 | Contains(":") is membership of ':' |
| Text.Split | Assets/Editor/MissingTextureGUIDChecker.cs:152 | Split gives at least one piece, and no piece contains the separator |
| Text.JoinSplit | Assets/Editor/MissingTextureGUIDChecker.cs:152 | joining the pieces of a split gives back the text |
| Text.SplitJoin | Assets/Editor/MissingTextureGUIDChecker.cs:152 | splitting the join of separator-free pieces gives back the pieces |
| Text.ReplaceAllAbsent | Assets/Editor/MissingTextureGUIDChecker.cs:27 | replacing a pattern that does not occur changes nothing |

## Left out

- Bike physics and steering, presentation, the settings UI, the editor
  reparenting tool, and car trigger wiring are outside the modelled logic.
- The waypoint motion and rotation (WaypointMovement.cs:90-122) is vector and
  quaternion geometry. Whether the waypoint is reached is a boolean input,
  and only the number of waypoints is kept.
- Waypoints.WaypointMovement.Update: requires the index to be on a waypoint,
  because the frame reads `wayPoints[wayPointIndex]` first. With an
  out-of-range index the source throws, and that path is not modelled.
  When there is at least one waypoint, WalkInBounds shows that the
  requirement holds in every frame after Start.
- TrafficLights.TrafficLight.ChangeSignal: null entries of `lightObject`,
  which throw in the source, are not modelled. The same goes for
  MirrorTrafficLights.MirrorTrafficLight.ChangeSignal.
- TrafficLights.TrafficLight.Update: the 0.5 s wait of the coroutine is not
  timed. Its second half is the separate ResumeTransition step, and
  `pendingTransitions` counts coroutines that have not finished, so
  overlapping coroutines (waitTime < 0.5 s) can be described but their
  timing is not.
- The mirror is subscribed to `OnLightChanged` in the scene, not in code.
  ChangeStateMirrored shows the relay for one mirror.
- SignalStopping.SignalStoppingVehicle.OnTriggerStay: `SpeedReceiver.Stop`
  and `Resume` are not defined in the receiver's source. The command is
  returned, and its effect on the speed is not modelled. The debug log and
  the unused `lastReceivedTime` field are left out.
- SpeedReceiving.SpeedReceiver.Update: the `if (simulate) return;` inside the
  drain loop (SpeedReceiver.cs:59-62) cannot fire, because `simulate` was
  false on entry and nothing in between changes it, so it is left out.
- The receive thread, the NetMQ socket, `ConcurrentQueue` concurrency,
  `StartProcesses`, `OnApplicationQuit` of the receiver and `float.TryParse`
  are network I/O and threading. A parsed speed reaches the model through
  SpeedReceiver.Enqueue.
- Float rounding is not modelled: speeds and times are exact reals.
- DataRecording.DataManager.WriteExcelFile: workbook creation, file paths,
  directory creation, `Process.Start`, and the exceptions they may throw are
  I/O. The result is the cell map that would be saved. The `Convert.ToSingle`
  calls are the identity on the stored floats. `DebugDataCount` is a log
  only. `GetBicycleVelocity` is an opaque input.
- TextureGuidChecker.BuildGuidToPath: requires a non-empty `dataPath`.
  `Replace` throws on an empty pattern, and Unity's `Application.dataPath` is
  never empty. The directory listing, the file reads (a failed read gives
  the lines read before it), `ProcessMaterial` and the `AssetDatabase` and
  `Material` calls are I/O and are left out.
- `StartsWith` and `EndsWith` without a comparison argument are
  culture-sensitive in .NET. They are modelled as ordinal comparisons, which
  agree on text without collation-ignorable characters (such as U+00AD or
  U+0000), for example the ASCII YAML of material and meta files.
- The enumeration order of the property pattern table does not matter,
  because its keys are distinct (PropertyNamesDistinct). The model walks
  them in declaration order.

## Findings

| source | as written | input that shows it | evidently intended | confidence | as-written member | corrected member |
|---|---|---|---|---|---|---|
| Assets/Editor/MissingTextureGUIDChecker.cs:27 | `metaPath.Replace(".meta", "")` removes every ".meta" in the path | meta file "Assets/x.meta.png.meta" of texture "Assets/x.meta.png" maps to "Assets/x.png" | remove only the trailing ".meta", giving back the texture's own path | not executed | TextureGuidChecker.AssetPathAsWrittenDropsInnerMeta | TextureGuidChecker.AssetPathOfMeta |

`MetaEntry`, `GuidMapOf`, `LastPathFor` and `BuildGuidToPath` take a
`PathRule`: `AsWritten` computes the source's map, `SuffixOnly` the map with
the corrected `AssetPath`. GuidMapIsLastWriter holds for both.

# MyEventBroadcaster, modelled in Dafny

Electron Cash's Android app runs Tor through the TorOnionProxyLibrary service
(`io.matthewnelson.topl_service`). The service reports what happens to it
through an event broadcaster; the app's `MyEventBroadcaster`
(`android/app/src/main/java/org/electroncash/electroncash3/TorSetup.kt`)
republishes those reports for the UI and the debug log:

- **port information** is published as given, every time;
- **bandwidth** reports arrive as two decimal strings (bytes read, bytes
  written). A report equal to the last one seen is dropped. Any other report
  becomes the last one seen, and when someone observes the bandwidth, the two
  counts are parsed as `Long`s and their formatted string is published;
- **Tor's state** arrives as a pair (state, network state). A repeated pair is
  dropped; a new pair becomes the last seen and is published;
- **log messages** (and debug messages, notices, exception messages and
  service lifecycle events, which are all forwarded to the same filter) are
  split on `|`. Null or empty messages and messages with fewer than three
  segments are dropped; the first three segments of the others go to the log.

Files:

- `Wrappers.dfy` — `Option`, for Kotlin's nullable values.
- `LogMessages.dfy` — Kotlin's `split("|")` (`Split`) with its inverse
  `Join`, the log filter (`FilterLogMessage`), and the lifecycle message with
  Kotlin's rendering of an `Int`.
- `BroadcastSpec.dfy` — the broadcaster's state changes as functions: one step
  per bandwidth report (`OnBandwidth`) and per Tor state report
  (`OnTorState`), whole runs of reports (`FeedBandwidth`, `FeedTorState`),
  and the properties of both.
- `TorSetup.dfy` — the class `MyEventBroadcaster`, whose fields are the
  last-seen values, the published values and the log, and whose methods
  mirror the Kotlin methods branch for branch and are proved to follow the
  functions in `BroadcastSpec.dfy` and `LogMessages.dfy`.

Calls into code outside the model become inputs:
`ServiceUtilities.getFormattedBandwidthString` and `String.toLong()` are
function-valued constants of the class (`toLong` gives `None` where Kotlin
throws `NumberFormatException`), `hasActiveObservers()` is a boolean argument
of `BroadcastBandwidth`, and the `Log.d` sink is the field `log`.

The constants `TorState.OFF` and `TorNetworkState.DISABLED` are declared
outside TorSetup.kt, which is not part of this model; the model uses the
service library's texts `"Tor: Off"` and `"Network: disabled"`, and nothing
proved depends on the text.

A count that does not parse is not skipped: `toLong()`
(TorSetup.kt:134-135) throws after `lastDownload` and `lastUpload` have
already been replaced (TorSetup.kt:130-131). The model records this as
`Outcome.ThrewNumberFormat`; see `BandwidthObservedReport` below.

## Model

| member | source | states |
|---|---|---|
| `LogMessages.Split` | android/app/src/main/java/org/electroncash/electroncash3/TorSetup.kt:157 | `split("|")` gives one more segment than there are separators, and no segment contains a separator |
| `LogMessages.SplitThenJoin` | android/app/src/main/java/org/electroncash/electroncash3/TorSetup.kt:157 | joining the segments with `|` gives back the message: splitting loses nothing |
| `LogMessages.JoinThenSplit` | android/app/src/main/java/org/electroncash/electroncash3/TorSetup.kt:157 | any non-empty list of separator-free segments is what splitting their join gives: the segments are determined by the message |
| `LogMessages.FilterLogMessage` | android/app/src/main/java/org/electroncash/electroncash3/TorSetup.kt:154-160 | the filter of `broadcastLogMessage`: nothing for null, empty, or fewer than three segments, otherwise the first three segments of the `|` split; its contract says a line comes only from a present, non-empty message and holds `|`-free segments; `FilterPassesIff`, `FilterKeepsFirstThree` and `FilterReadsPrefix` state the rest |
| `LogMessages.LogOutput` | android/app/src/main/java/org/electroncash/electroncash3/TorSetup.kt:154-161 | one message writes at most one log line |
| `LogMessages.FilterPassesIff` | android/app/src/main/java/org/electroncash/electroncash3/TorSetup.kt:155-158 | a message is logged if and only if it is non-null and contains at least two `|` (null, empty, and fewer than three segments are dropped) |
| `LogMessages.FilterKeepsFirstThree` | android/app/src/main/java/org/electroncash/electroncash3/TorSetup.kt:157-160 | a message made of three or more `|`-free segments is logged as exactly its first three; the further segments are ignored |
| `LogMessages.FilterReadsPrefix` | android/app/src/main/java/org/electroncash/electroncash3/TorSetup.kt:157-160 | a logged line (a, b, c) is the start of its message: the message begins with `a|b|c` and either ends there or continues with `|` |
| `LogMessages.Digits` | android/app/src/main/java/org/electroncash/electroncash3/TorSetup.kt:112 | the digits of a natural number are decimal digits with no leading zero; the first is `0` only for zero |
| `LogMessages.IntToString` | android/app/src/main/java/org/electroncash/electroncash3/TorSetup.kt:112 | the rendered hash code holds no `|`, and starts with `-` exactly when it is negative |
| `LogMessages.IntToStringRoundTrip` | android/app/src/main/java/org/electroncash/electroncash3/TorSetup.kt:112 | reading the rendered hash code back as a decimal number gives the hash code |
| `LogMessages.LifecycleMessage` | android/app/src/main/java/org/electroncash/electroncash3/TorSetup.kt:112 | the template `NOTICE|TorService|LCE=<event> - HashCode=<hash>`; its contract says it splits into at least three segments, the first two `NOTICE` and `TorService`; `LifecycleEventLogged` states what is logged |
| `LogMessages.LifecycleSplit` | android/app/src/main/java/org/electroncash/electroncash3/TorSetup.kt:112 | any message starting `NOTICE|TorService|` splits into `NOTICE`, `TorService`, then the segments of the rest |
| `LogMessages.LifecycleEventLogged` | android/app/src/main/java/org/electroncash/electroncash3/TorSetup.kt:111-113 | every lifecycle event passes the filter, as level `NOTICE` from `TorService`; the third segment is `LCE=<event> - HashCode=<hash>` up to its first `|`, so all of it when the event text holds no `|` |
| `BroadcastSpec.InitialBandwidth` | android/app/src/main/java/org/electroncash/electroncash3/TorSetup.kt:119-124 | the initial bandwidth state: last seen `"0"`/`"0"`, published `format(0, 0)`; its contract says a first report of `"0"`/`"0"` changes nothing and returns normally, observed or not |
| `BroadcastSpec.OnBandwidth` | android/app/src/main/java/org/electroncash/electroncash3/TorSetup.kt:127-137 | one `broadcastBandwidth` call; its contract says the published string changes only with observers and a normal return, a throw needs observers and keeps the published string, and any change makes the report the last one seen; `BandwidthRepeatIsNoOp`, `BandwidthDifferingReport` and `BandwidthObservedReport` state each case exactly |
| `BroadcastSpec.BandwidthRepeatIsNoOp` | android/app/src/main/java/org/electroncash/electroncash3/TorSetup.kt:127-128 | a report equal, as strings, to the last one seen changes neither the last-seen pair nor the published string, and returns normally |
| `BroadcastSpec.BandwidthDifferingReport` | android/app/src/main/java/org/electroncash/electroncash3/TorSetup.kt:130-132 | a differing report always becomes the last one seen, also without observers; without observers nothing is published |
| `BroadcastSpec.BandwidthObservedReport` | android/app/src/main/java/org/electroncash/electroncash3/TorSetup.kt:130-136 | with observers, a differing report publishes `format(toLong(read), toLong(written))`; if either count fails to parse the call throws, the report is still the last one seen, and the published string is unchanged |
| `BroadcastSpec.FeedBandwidthAppend` | android/app/src/main/java/org/electroncash/electroncash3/TorSetup.kt:127-137 | feeding two runs of reports in turn is feeding their concatenation |
| `BroadcastSpec.FeedBandwidthLastSeen` | android/app/src/main/java/org/electroncash/electroncash3/TorSetup.kt:127-132 | after any non-empty run of reports, observed or not, the last-seen pair is the run's last report: the comparison is against raw counts, never the published string |
| `BroadcastSpec.FeedBandwidthCollapsesRepeat` | android/app/src/main/java/org/electroncash/electroncash3/TorSetup.kt:127-128 | a report repeating the counts of the one before it has no effect whatever its observers: dropping it gives the same final state |
| `BroadcastSpec.InitialTorState` | android/app/src/main/java/org/electroncash/electroncash3/TorSetup.kt:173-178 | the initial published state data (OFF, DISABLED) is the initial last-seen pair |
| `BroadcastSpec.OnTorState` | android/app/src/main/java/org/electroncash/electroncash3/TorSetup.kt:181-187 | one `broadcastTorState` call; its contract says the last-seen pair is always the reported pair afterwards, consistency of published data with it is kept, and any change publishes exactly the reported pair; `TorStateStep` and `TorStateIdempotent` state the rest |
| `BroadcastSpec.TorStateStep` | android/app/src/main/java/org/electroncash/electroncash3/TorSetup.kt:181-187 | after any report the last-seen pair and the published data are exactly the reported pair; a repeated pair leaves the state as it was |
| `BroadcastSpec.TorStateIdempotent` | android/app/src/main/java/org/electroncash/electroncash3/TorSetup.kt:181-187 | reporting the same pair twice leaves the same state as reporting it once |
| `BroadcastSpec.FeedTorStateAppend` | android/app/src/main/java/org/electroncash/electroncash3/TorSetup.kt:181-187 | feeding two runs in turn is feeding their concatenation, and the published values are those of the first run followed by those of the second |
| `BroadcastSpec.FeedTorStateLast` | android/app/src/main/java/org/electroncash/electroncash3/TorSetup.kt:181-187 | after a non-empty run of reports the published data is the run's last pair |
| `BroadcastSpec.FeedTorStateLastSeen` | android/app/src/main/java/org/electroncash/electroncash3/TorSetup.kt:182-185 | from any starting state, after a non-empty run of reports the last-seen pair is the run's last pair |
| `BroadcastSpec.FeedTorStateNoRepeatedPublish` | android/app/src/main/java/org/electroncash/electroncash3/TorSetup.kt:182-186 | no value is published twice in a row, and the first one differs from what was already published |
| `BroadcastSpec.FeedTorStateCollapsesRepeat` | android/app/src/main/java/org/electroncash/electroncash3/TorSetup.kt:182 | from any starting state, of identical consecutive reports only the first has an effect: dropping a repeat leaves the final state and the published values alike |
| `TorSetup.MyEventBroadcaster.constructor` | android/app/src/main/java/org/electroncash/electroncash3/TorSetup.kt:104-179 | port info starts null, bandwidth last seen `"0"`/`"0"` and published `format(0, 0)`, Tor state OFF/DISABLED published as such, log empty |
| `TorSetup.MyEventBroadcaster.BroadcastPortInformation` | android/app/src/main/java/org/electroncash/electroncash3/TorSetup.kt:107-109 | the port information is published as given, with no deduplication, and nothing else changes |
| `TorSetup.MyEventBroadcaster.BroadcastServiceLifecycleEvent` | android/app/src/main/java/org/electroncash/electroncash3/TorSetup.kt:111-113 | exactly one line is logged, of level `NOTICE` from `TorService` |
| `TorSetup.MyEventBroadcaster.BroadcastBandwidth` | android/app/src/main/java/org/electroncash/electroncash3/TorSetup.kt:127-137 | the new last-seen pair, published string and outcome are those of `OnBandwidth` on the old ones; nothing else changes |
| `TorSetup.MyEventBroadcaster.BroadcastDebug` | android/app/src/main/java/org/electroncash/electroncash3/TorSetup.kt:139-141 | the message goes to the log filter unchanged |
| `TorSetup.MyEventBroadcaster.BroadcastException` | android/app/src/main/java/org/electroncash/electroncash3/TorSetup.kt:143-147 | a null or empty message logs nothing; any other goes to the log filter unchanged |
| `TorSetup.MyEventBroadcaster.BroadcastLogMessage` | android/app/src/main/java/org/electroncash/electroncash3/TorSetup.kt:154-161 | the log grows by exactly what the filter lets through for the message |
| `TorSetup.MyEventBroadcaster.BroadcastNotice` | android/app/src/main/java/org/electroncash/electroncash3/TorSetup.kt:163-165 | the notice goes to the log filter unchanged |
| `TorSetup.MyEventBroadcaster.BroadcastTorState` | android/app/src/main/java/org/electroncash/electroncash3/TorSetup.kt:181-187 | the new state is `OnTorState` of the old one: last-seen pair and published data are the reported pair, the published data still matches the last-seen pair, and nothing else changes |

## Left out

- `generateTorServiceNotificationBuilder`, `generateBackgroundManagerPolicy` and `setupTorServices` (TorSetup.kt:17-96): builder calls that configure the notification and the service library, with no logic of their own.
- The Tor process, its control channel, the service lifecycle and the restart, stop and network-disable delays: they live in the service library, which is not part of this model.
- `getFormattedBandwidthString` and `String.toLong()`: foreign calls, taken as inputs of the class; what text they produce or which strings parse is not modelled.
- `LiveData` observers and main-thread delivery: `hasActiveObservers()` is an argument, each `LiveData` is a field holding its current value, and concurrent calls are not modelled.
- `Log.d`'s tag `TOR-TEST` and its rendering of a line as `a | b | c`: the log keeps the three segments.
- `e.printStackTrace()` in `broadcastException`: console output; the exception argument is therefore not modelled.
- `TorStateData` is an inner class compared by identity in Kotlin; the model treats it as a value, which is all the broadcaster relies on.

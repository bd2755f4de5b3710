/**
 * `MyEventBroadcaster`: receives the Tor service's events and republishes
 * them as observable state (port information, bandwidth, Tor's state) and as
 * log lines. Each observable `LiveData` holder is a field holding its current
 * value; the log is the sequence of lines written so far.
 */
module TorSetup {
  import opened Wrappers
  import opened LogMessages
  import opened BroadcastSpec

  /**
   * `PortInfo` stands for the service library's `TorPortInfo`, which the
   * broadcaster stores without looking inside.
   */
  class MyEventBroadcaster<PortInfo> {
    /** `ServiceUtilities.getFormattedBandwidthString`, a call into the service library. */
    const formatBandwidth: (Long, Long) -> string
    /** Kotlin's `String.toLong()`; None where it throws NumberFormatException. */
    const toLong: string -> Option<Long>

    /** `_liveTorPortInfo.value`; None is `null`. */
    var liveTorPortInfo: Option<PortInfo>

    var lastDownload: string
    var lastUpload: string
    /** `_liveBandwidth.value`. */
    var liveBandwidth: string

    var lastState: string
    var lastNetworkState: string
    /** `_liveTorState.value`. */
    var liveTorState: TorStateData

    /** The lines handed to the debug log, oldest first. */
    var log: seq<LogLine>

    /** The bandwidth part of the state. */
    function Bandwidth(): BandwidthView
      reads this
    {
      BandwidthView(lastDownload, lastUpload, liveBandwidth)
    }

    /** The Tor state part of the state. */
    function TorState(): StateView
      reads this
    {
      StateView(lastState, lastNetworkState, liveTorState)
    }

    /** The published Tor state always carries the last pair seen. */
    ghost predicate Valid()
      reads this
    {
      StateConsistent(TorState())
    }

    constructor (formatBandwidth: (Long, Long) -> string, toLong: string -> Option<Long>)
      ensures Valid()
      ensures this.formatBandwidth == formatBandwidth && this.toLong == toLong
      ensures liveTorPortInfo == None
      ensures Bandwidth() == InitialBandwidth(formatBandwidth)
      ensures TorState() == InitialTorState()
      ensures log == []
    {
      this.formatBandwidth := formatBandwidth;
      this.toLong := toLong;
      liveTorPortInfo := None;
      lastDownload := "0";
      lastUpload := "0";
      liveBandwidth := formatBandwidth(0, 0);
      lastState := TorStateOff;
      lastNetworkState := NetworkDisabled;
      liveTorState := TorStateData(TorStateOff, NetworkDisabled);
      log := [];
    }

    /** Publishes the port information as given, every time. */
    method BroadcastPortInformation(torPortInfo: PortInfo)
      modifies this`liveTorPortInfo
      ensures liveTorPortInfo == Some(torPortInfo)
    {
      liveTorPortInfo := Some(torPortInfo);
    }

    /** Logs a service lifecycle event as a NOTICE line from TorService. */
    method BroadcastServiceLifecycleEvent(event: string, hashCode: Int32)
      modifies this`log
      ensures log == old(log) + LogOutput(Some(LifecycleMessage(event, hashCode)))
      ensures |log| == |old(log)| + 1
      ensures log[|log| - 1].level == "NOTICE" && log[|log| - 1].origin == "TorService"
    {
      LifecycleEventLogged(event, hashCode);
      BroadcastLogMessage(Some(LifecycleMessage(event, hashCode)));
    }

    /**
     * Takes a new bandwidth report; `hasActiveObservers` says whether anyone
     * observes the published bandwidth at that moment.
     */
    method BroadcastBandwidth(bytesRead: string, bytesWritten: string, hasActiveObservers: bool)
      returns (outcome: Outcome)
      modifies this`lastDownload, this`lastUpload, this`liveBandwidth
      ensures (Bandwidth(), outcome)
              == OnBandwidth(old(Bandwidth()), bytesRead, bytesWritten, hasActiveObservers, formatBandwidth, toLong)
    {
      if bytesRead == lastDownload && bytesWritten == lastUpload {
        return Returned;
      }
      lastDownload := bytesRead;
      lastUpload := bytesWritten;
      if !hasActiveObservers {
        return Returned;
      }
      var read := toLong(bytesRead);
      if read.None? {
        return ThrewNumberFormat;
      }
      var written := toLong(bytesWritten);
      if written.None? {
        return ThrewNumberFormat;
      }
      liveBandwidth := formatBandwidth(read.value, written.value);
      return Returned;
    }

    /** Forwards a debug message to the log filter unchanged. */
    method BroadcastDebug(msg: string)
      modifies this`log
      ensures log == old(log) + LogOutput(Some(msg))
    {
      BroadcastLogMessage(Some(msg));
    }

    /** Forwards an exception's message to the log filter, unless it is null or empty. */
    method BroadcastException(msg: Option<string>)
      modifies this`log
      ensures msg == None || msg == Some("") ==> log == old(log)
      ensures log == old(log) + LogOutput(msg)
    {
      if msg == None || msg == Some("") {
        return;
      }
      BroadcastLogMessage(msg);
    }

    /** Logs the first three `|`-separated segments of a message that has at least three. */
    method BroadcastLogMessage(logMessage: Option<string>)
      modifies this`log
      ensures log == old(log) + LogOutput(logMessage)
    {
      if logMessage == None || logMessage == Some("") {
        return;
      }
      var splitMsg := Split(logMessage.value);
      if |splitMsg| < 3 {
        return;
      }
      log := log + [LogLine(splitMsg[0], splitMsg[1], splitMsg[2])];
    }

    /** Forwards a notice to the log filter unchanged. */
    method BroadcastNotice(msg: string)
      modifies this`log
      ensures log == old(log) + LogOutput(Some(msg))
    {
      BroadcastLogMessage(Some(msg));
    }

    /** Takes a new report of Tor's state and network state. */
    method BroadcastTorState(state: string, networkState: string)
      requires Valid()
      modifies this`lastState, this`lastNetworkState, this`liveTorState
      ensures Valid()
      ensures TorState() == OnTorState(old(TorState()), state, networkState)
      ensures lastState == state && lastNetworkState == networkState
      ensures liveTorState == TorStateData(state, networkState)
    {
      if state == lastState && networkState == lastNetworkState {
        return;
      }
      lastState := state;
      lastNetworkState := networkState;
      liveTorState := TorStateData(state, networkState);
    }
  }
}

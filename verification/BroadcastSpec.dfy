/**
 * What `MyEventBroadcaster` does to its state, as functions on values: one
 * step per bandwidth report and per Tor state report, and the effect of a
 * whole run of reports. The class in TorSetup.dfy is proved to follow these.
 */
module BroadcastSpec {
  import opened Wrappers

  /** Kotlin's 64-bit `Long`. */
  type Long = x: int | -0x8000_0000_0000_0000 <= x < 0x8000_0000_0000_0000

  /** How a broadcast call ends: normally, or by `toLong` throwing NumberFormatException. */
  datatype Outcome = Returned | ThrewNumberFormat

  ///////////////////
  /// Bandwidth ///
  ///////////////////

  /** The last raw report seen and the bandwidth string last published. */
  datatype BandwidthView = BandwidthView(lastDownload: string, lastUpload: string, published: string)

  /** Before any report: last seen "0"/"0", published the formatting of (0, 0). */
  function InitialBandwidth(format: (Long, Long) -> string): (v: BandwidthView)
    ensures forall toLong: string -> Option<Long> ::
              OnBandwidth(v, "0", "0", true, format, toLong) == (v, Returned)
              && OnBandwidth(v, "0", "0", false, format, toLong) == (v, Returned)
  {
    BandwidthView("0", "0", format(0, 0))
  }

  /**
   * One `broadcastBandwidth(bytesRead, bytesWritten)` call. A report equal to
   * the last one is ignored; otherwise it becomes the last one seen and, when
   * someone observes the bandwidth, both counts are parsed with `toLong`
   * (None: it throws) and their formatting is published.
   */
  function OnBandwidth(v: BandwidthView, bytesRead: string, bytesWritten: string, observed: bool,
                       format: (Long, Long) -> string, toLong: string -> Option<Long>): (r: (BandwidthView, Outcome))
    ensures r.0.published != v.published ==> observed && r.1 == Returned
    ensures r.1 == ThrewNumberFormat ==> observed && r.0.published == v.published
    ensures r.0 != v ==> r.0.lastDownload == bytesRead && r.0.lastUpload == bytesWritten
  {
    if bytesRead == v.lastDownload && bytesWritten == v.lastUpload then (v, Returned)
    else
      var seen := v.(lastDownload := bytesRead, lastUpload := bytesWritten);
      if !observed then (seen, Returned)
      else match (toLong(bytesRead), toLong(bytesWritten))
        case (Some(read), Some(written)) => (seen.(published := format(read, written)), Returned)
        case _ => (seen, ThrewNumberFormat)
  }

  /** A report identical to the last one seen changes nothing. */
  lemma BandwidthRepeatIsNoOp(v: BandwidthView, bytesRead: string, bytesWritten: string, observed: bool,
                              format: (Long, Long) -> string, toLong: string -> Option<Long>)
    requires bytesRead == v.lastDownload && bytesWritten == v.lastUpload
    ensures OnBandwidth(v, bytesRead, bytesWritten, observed, format, toLong) == (v, Returned)
  {
  }

  /**
   * A report that differs from the last one becomes the last one seen, with or
   * without observers; without observers nothing is published.
   */
  lemma BandwidthDifferingReport(v: BandwidthView, bytesRead: string, bytesWritten: string, observed: bool,
                                 format: (Long, Long) -> string, toLong: string -> Option<Long>)
    requires bytesRead != v.lastDownload || bytesWritten != v.lastUpload
    ensures var (next, outcome) := OnBandwidth(v, bytesRead, bytesWritten, observed, format, toLong);
            next.lastDownload == bytesRead && next.lastUpload == bytesWritten
            && (!observed ==> next.published == v.published && outcome == Returned)
  {
  }

  /**
   * With observers, a differing report publishes the formatting of its two
   * counts when both parse; when either does not, the call throws, the report
   * still counts as seen, and the published string stays as it was.
   */
  lemma BandwidthObservedReport(v: BandwidthView, bytesRead: string, bytesWritten: string,
                                format: (Long, Long) -> string, toLong: string -> Option<Long>)
    requires bytesRead != v.lastDownload || bytesWritten != v.lastUpload
    ensures var (next, outcome) := OnBandwidth(v, bytesRead, bytesWritten, true, format, toLong);
            next.lastDownload == bytesRead && next.lastUpload == bytesWritten
            && (if toLong(bytesRead).Some? && toLong(bytesWritten).Some?
                then next.published == format(toLong(bytesRead).value, toLong(bytesWritten).value)
                     && outcome == Returned
                else next.published == v.published && outcome == ThrewNumberFormat)
  {
  }

  /** One bandwidth report as delivered, with whether the bandwidth had observers at that moment. */
  datatype BandwidthReport = BandwidthReport(bytesRead: string, bytesWritten: string, observed: bool)

  /** The state after a run of reports, delivered in order. */
  function FeedBandwidth(v: BandwidthView, reports: seq<BandwidthReport>,
                         format: (Long, Long) -> string, toLong: string -> Option<Long>): BandwidthView
    decreases |reports|
  {
    if reports == [] then v
    else
      var r := reports[0];
      FeedBandwidth(OnBandwidth(v, r.bytesRead, r.bytesWritten, r.observed, format, toLong).0,
                    reports[1..], format, toLong)
  }

  /** Feeding two runs one after the other is feeding their concatenation. */
  lemma {:induction false} FeedBandwidthAppend(v: BandwidthView, a: seq<BandwidthReport>, b: seq<BandwidthReport>,
                                               format: (Long, Long) -> string, toLong: string -> Option<Long>)
    ensures FeedBandwidth(v, a + b, format, toLong)
            == FeedBandwidth(FeedBandwidth(v, a, format, toLong), b, format, toLong)
    decreases |a|
  {
    if a != [] {
      assert (a + b)[0] == a[0];
      assert (a + b)[1..] == a[1..] + b;
      var r := a[0];
      FeedBandwidthAppend(OnBandwidth(v, r.bytesRead, r.bytesWritten, r.observed, format, toLong).0,
                          a[1..], b, format, toLong);
    } else {
      assert a + b == b;
    }
  }

  /**
   * After a non-empty run, the last report seen is the run's last report,
   * whether or not anyone observed it: the comparison is always against raw
   * counts, never against the published string.
   */
  lemma {:induction false} FeedBandwidthLastSeen(v: BandwidthView, reports: seq<BandwidthReport>,
                                                 format: (Long, Long) -> string, toLong: string -> Option<Long>)
    requires reports != []
    ensures var after := FeedBandwidth(v, reports, format, toLong);
            after.lastDownload == reports[|reports| - 1].bytesRead
            && after.lastUpload == reports[|reports| - 1].bytesWritten
    decreases |reports|
  {
    var r := reports[0];
    var next := OnBandwidth(v, r.bytesRead, r.bytesWritten, r.observed, format, toLong).0;
    if |reports| > 1 {
      FeedBandwidthLastSeen(next, reports[1..], format, toLong);
    }
  }

  /**
   * A report repeating the counts of the report just before it has no effect,
   * whatever its observers: dropping it leaves the same final state.
   */
  lemma FeedBandwidthCollapsesRepeat(v: BandwidthView, a: seq<BandwidthReport>, r: BandwidthReport,
                                     repeat: BandwidthReport, b: seq<BandwidthReport>,
                                     format: (Long, Long) -> string, toLong: string -> Option<Long>)
    requires repeat.bytesRead == r.bytesRead && repeat.bytesWritten == r.bytesWritten
    ensures FeedBandwidth(v, a + [r, repeat] + b, format, toLong) == FeedBandwidth(v, a + [r] + b, format, toLong)
  {
    var mid := FeedBandwidth(v, a + [r], format, toLong);
    FeedBandwidthLastSeen(v, a + [r], format, toLong);
    assert a + [r, repeat] + b == (a + [r]) + ([repeat] + b);
    assert a + [r] + b == (a + [r]) + b;
    FeedBandwidthAppend(v, a + [r], [repeat] + b, format, toLong);
    FeedBandwidthAppend(v, a + [r], b, format, toLong);
    assert ([repeat] + b)[1..] == b;
  }

  ///////////////////
  /// Tor's State ///
  ///////////////////

  /** `TorState.OFF`, the state before any report. */
  const TorStateOff: string := "Tor: Off"

  /** `TorNetworkState.DISABLED`, the network state before any report. */
  const NetworkDisabled: string := "Network: disabled"

  /** The published pair of Tor's state and its network state. */
  datatype TorStateData = TorStateData(state: string, networkState: string)

  /** The last pair seen and the data last published. */
  datatype StateView = StateView(lastState: string, lastNetworkState: string, published: TorStateData)

  /** What is published is always the last pair seen. */
  predicate StateConsistent(v: StateView)
  {
    v.published == TorStateData(v.lastState, v.lastNetworkState)
  }

  /** Before any report: OFF and DISABLED, published as such. */
  function InitialTorState(): (v: StateView)
    ensures StateConsistent(v)
  {
    StateView(TorStateOff, NetworkDisabled, TorStateData(TorStateOff, NetworkDisabled))
  }

  /** Whether `broadcastTorState(state, networkState)` publishes: the pair differs from the last one. */
  predicate TorStateChanges(v: StateView, state: string, networkState: string)
  {
    state != v.lastState || networkState != v.lastNetworkState
  }

  /** One `broadcastTorState(state, networkState)` call. */
  function OnTorState(v: StateView, state: string, networkState: string): (r: StateView)
    ensures r.lastState == state && r.lastNetworkState == networkState
    ensures StateConsistent(v) ==> StateConsistent(r)
    ensures r != v ==> r.published == TorStateData(state, networkState)
  {
    if !TorStateChanges(v, state, networkState) then v
    else StateView(state, networkState, TorStateData(state, networkState))
  }

  /**
   * A differing pair becomes the last pair seen and the published data; a
   * repeated pair changes nothing. Either way the view stays consistent.
   */
  lemma TorStateStep(v: StateView, state: string, networkState: string)
    requires StateConsistent(v)
    ensures var next := OnTorState(v, state, networkState);
            StateConsistent(next) && next.lastState == state && next.lastNetworkState == networkState
            && next.published == TorStateData(state, networkState)
            && (!TorStateChanges(v, state, networkState) ==> next == v)
  {
  }

  /** Reporting the same pair twice is reporting it once. */
  lemma TorStateIdempotent(v: StateView, state: string, networkState: string)
    ensures OnTorState(OnTorState(v, state, networkState), state, networkState) == OnTorState(v, state, networkState)
  {
  }

  /**
   * A run of `(state, networkState)` reports: the final view and, in order,
   * every value assigned to the published state.
   */
  function FeedTorState(v: StateView, events: seq<TorStateData>): (StateView, seq<TorStateData>)
    decreases |events|
  {
    if events == [] then (v, [])
    else
      var e := events[0];
      var next := OnTorState(v, e.state, e.networkState);
      var (last, published) := FeedTorState(next, events[1..]);
      (last, (if TorStateChanges(v, e.state, e.networkState) then [next.published] else []) + published)
  }

  /** Feeding two runs one after the other is feeding their concatenation. */
  lemma {:induction false} FeedTorStateAppend(v: StateView, a: seq<TorStateData>, b: seq<TorStateData>)
    ensures var (mid, first) := FeedTorState(v, a);
            var (last, second) := FeedTorState(mid, b);
            FeedTorState(v, a + b) == (last, first + second)
    decreases |a|
  {
    if a == [] {
      assert a + b == b;
      var (last, second) := FeedTorState(v, b);
      assert [] + second == second;
    } else {
      var e := a[0];
      var next := OnTorState(v, e.state, e.networkState);
      var step := if TorStateChanges(v, e.state, e.networkState) then [next.published] else [];
      assert (a + b)[0] == e;
      assert (a + b)[1..] == a[1..] + b;
      FeedTorStateAppend(next, a[1..], b);
      var (mid, rest) := FeedTorState(next, a[1..]);
      var (last, second) := FeedTorState(mid, b);
      assert FeedTorState(v, a) == (mid, step + rest);
      assert FeedTorState(v, a + b) == (last, step + (rest + second));
      assert step + (rest + second) == (step + rest) + second;
    }
  }

  /** After a non-empty run, the published data is the run's last pair. */
  lemma {:induction false} FeedTorStateLast(v: StateView, events: seq<TorStateData>)
    requires StateConsistent(v) && events != []
    ensures var last := FeedTorState(v, events).0;
            StateConsistent(last) && last.published == events[|events| - 1]
    decreases |events|
  {
    var e := events[0];
    var next := OnTorState(v, e.state, e.networkState);
    if |events| > 1 {
      FeedTorStateLast(next, events[1..]);
    }
  }

  /** After a non-empty run, from any view, the last pair seen is the run's last pair. */
  lemma {:induction false} FeedTorStateLastSeen(v: StateView, events: seq<TorStateData>)
    requires events != []
    ensures var last := FeedTorState(v, events).0;
            last.lastState == events[|events| - 1].state
            && last.lastNetworkState == events[|events| - 1].networkState
    decreases |events|
  {
    if |events| > 1 {
      FeedTorStateLastSeen(OnTorState(v, events[0].state, events[0].networkState), events[1..]);
    }
  }

  /**
   * No redundant notification: every published value differs from the one
   * published before it, the first from the value already published.
   */
  lemma {:induction false} FeedTorStateNoRepeatedPublish(v: StateView, events: seq<TorStateData>)
    requires StateConsistent(v)
    ensures var published := FeedTorState(v, events).1;
            (published != [] ==> published[0] != v.published)
            && forall i :: 0 < i < |published| ==> published[i - 1] != published[i]
    decreases |events|
  {
    if events != [] {
      var e := events[0];
      var next := OnTorState(v, e.state, e.networkState);
      var rest := FeedTorState(next, events[1..]).1;
      FeedTorStateNoRepeatedPublish(next, events[1..]);
      if TorStateChanges(v, e.state, e.networkState) {
        var published := [next.published] + rest;
        forall i | 0 < i < |published| ensures published[i - 1] != published[i] {
          if i > 1 {
            assert published[i - 1] == rest[i - 2] && published[i] == rest[i - 1];
          }
        }
      }
    }
  }

  /**
   * Of a run of identical consecutive reports only the first has an effect:
   * dropping a repeat leaves the final view and the published values alike.
   */
  lemma FeedTorStateCollapsesRepeat(v: StateView, a: seq<TorStateData>, e: TorStateData, b: seq<TorStateData>)
    ensures FeedTorState(v, a + [e, e] + b) == FeedTorState(v, a + [e] + b)
  {
    assert a + [e, e] + b == (a + [e]) + ([e] + b);
    assert a + [e] + b == (a + [e]) + b;
    FeedTorStateAppend(v, a + [e], [e] + b);
    FeedTorStateAppend(v, a + [e], b);
    var mid := FeedTorState(v, a + [e]).0;
    FeedTorStateLastSeen(v, a + [e]);
    assert ([e] + b)[0] == e && ([e] + b)[1..] == b;
    assert !TorStateChanges(mid, e.state, e.networkState);
    var (last, second) := FeedTorState(mid, b);
    assert FeedTorState(mid, [e] + b) == (last, [] + second);
    assert [] + second == second;
  }
}

/** checkSatelliteAvailability (internal/controller/ntnslice_controller.go): is the pass known, and which member is overhead and deliverable? */
module ContactSelection {
  import opened Prelude
  import opened Freshness
  import SliceReconciler

  datatype Window = Window(norad: int, station: string, aos: Instant, los: Instant)
  datatype ElementState = ElementState(norad: int, sourceEpoch: Instant)

  /** What reading the referenced SatelliteEphemeris gave; `predicted` is PassesPredicted=True. */
  datatype Lookup = NotFound | ReadError | Found(predicted: bool, windows: seq<Window>, states: seq<ElementState>)

  datatype Verdict = Overhead(candidate: Window) | OnlyStaleOverhead | NothingOverhead | RefNotFound | ReadFailed | PredictionUnavailable

  /** The two flags the reconciler acts on: an unknown pass is not the same as none. */
  function ContactOf(v: Verdict): SliceReconciler.Contact {
    match v
    case Overhead(_) => SliceReconciler.Readable(true)
    case OnlyStaleOverhead => SliceReconciler.Readable(false)
    case NothingOverhead => SliceReconciler.Readable(false)
    case RefNotFound => SliceReconciler.Readable(false)
    case ReadFailed => SliceReconciler.Unreadable
    case PredictionUnavailable => SliceReconciler.Unreadable
  }

  predicate Active(w: Window, now: Instant) {
    w.aos <= now < w.los
  }

  predicate TooStale(states: seq<ElementState>, norad: int, now: Instant) {
    exists s | s in states :: s.norad == norad && !Fresh(now, s.sourceEpoch)
  }

  /** A window without a NORAD ID, or without a state, predates the correlation and stays usable. */
  predicate Deliverable(w: Window, states: seq<ElementState>, now: Instant) {
    Active(w, now) && !(w.norad != 0 && TooStale(states, w.norad, now))
  }

  /** earlierLOSCandidate */
  predicate Earlier(a: Window, b: Window) {
    if a.los != b.los then a.los < b.los
    else if a.norad != b.norad then a.norad < b.norad
    else StringLess(a.station, b.station)
  }

  lemma EarlierIsAnOrder(a: Window, b: Window, c: Window)
    ensures !Earlier(a, a)
    ensures Earlier(a, b) && Earlier(b, c) ==> Earlier(a, c)
    ensures Earlier(a, b) || Earlier(b, a) || (a.los == b.los && a.norad == b.norad && a.station == b.station)
  {
    StringOrderTotal(a.station, b.station);
    if StringLess(a.station, b.station) && StringLess(b.station, c.station) {
      StringOrderTransitive(a.station, b.station, c.station);
    }
  }

  /** The verdict a caller can rely on, independent of the order of windows and states. */
  ghost predicate Correct(v: Verdict, windows: seq<Window>, states: seq<ElementState>, now: Instant) {
    match v
    case Overhead(c) =>
      c in windows && Deliverable(c, states, now)
      && forall w | w in windows && Deliverable(w, states, now) :: !Earlier(w, c)
    case OnlyStaleOverhead =>
      (exists w | w in windows :: Active(w, now)) && forall w | w in windows :: !Deliverable(w, states, now)
    case NothingOverhead => forall w | w in windows :: !Active(w, now)
    case _ => false
  }

  /** The two scans over states and windows. */
  method ScanWindows(windows: seq<Window>, states: seq<ElementState>, now: Instant) returns (v: Verdict)
    ensures Correct(v, windows, states, now)
  {
    var stale: set<int> := {};
    for i := 0 to |states|
      invariant forall n :: n in stale <==> TooStale(states[..i], n, now)
    {
      assert states[i] in states[..i + 1] && forall s :: s in states[..i + 1] <==> s in states[..i] || s == states[i];
      if now - states[i].sourceEpoch > MAX_EPOCH_AGE { stale := stale + {states[i].norad}; }
    }
    assert states[..|states|] == states;
    var best: Option<Window> := None;
    var activeStale := false;
    for i := 0 to |windows|
      invariant best != None ==> Correct(Overhead(best.value), windows[..i], states, now)
      invariant best == None ==> forall w | w in windows[..i] :: !Deliverable(w, states, now)
      invariant activeStale <==> exists w | w in windows[..i] :: Active(w, now) && !Deliverable(w, states, now)
    {
      var pw := windows[i];
      assert pw in windows[..i + 1] && forall w :: w in windows[..i + 1] <==> w in windows[..i] || w == pw;
      if pw.aos > now || pw.los <= now { continue; }
      if pw.norad != 0 && pw.norad in stale {
        activeStale := true;
        continue;
      }
      if best == None || Earlier(pw, best.value) {
        if best != None {
          var was := best.value;
          forall w | w in windows[..i + 1] && Deliverable(w, states, now) ensures !Earlier(w, pw) {
            EarlierIsAnOrder(w, pw, was);
          }
        } else {
          EarlierIsAnOrder(pw, pw, pw);
        }
        best := Some(pw);
      }
    }
    assert windows[..|windows|] == windows;
    if best != None { return Overhead(best.value); }
    if activeStale { return OnlyStaleOverhead; }
    return NothingOverhead;
  }

  /**
   A pass is unknown exactly when the read failed or the prediction is not True; it is available exactly when the
   prediction is True and some active window has fresh elements; a dangling reference is known and unavailable.
   */
  method CheckSatelliteAvailability(lookup: Lookup, now: Instant) returns (v: Verdict)
    ensures lookup.NotFound? <==> v == RefNotFound
    ensures lookup.ReadError? <==> v == ReadFailed
    ensures lookup.Found? && !lookup.predicted <==> v == PredictionUnavailable
    ensures lookup.Found? && lookup.predicted ==> Correct(v, lookup.windows, lookup.states, now)
    ensures ContactOf(v) == SliceReconciler.Unreadable <==> lookup.ReadError? || (lookup.Found? && !lookup.predicted)
    ensures ContactOf(v) == SliceReconciler.Readable(true) <==>
      lookup.Found? && lookup.predicted && exists w | w in lookup.windows :: Deliverable(w, lookup.states, now)
  {
    match lookup
    case NotFound => return RefNotFound;
    case ReadError => return ReadFailed;
    case Found(predicted, windows, states) =>
      if !predicted {
        return PredictionUnavailable;
      }
      v := ScanWindows(windows, states, now);
  }

  /** Two lists with the same windows and states give the same verdict, down to the candidate's LOS, NORAD and station. */
  lemma VerdictIgnoresOrder(v1: Verdict, ws1: seq<Window>, ss1: seq<ElementState>, v2: Verdict, ws2: seq<Window>, ss2: seq<ElementState>, now: Instant)
    requires Correct(v1, ws1, ss1, now) && Correct(v2, ws2, ss2, now)
    requires (forall w :: w in ws1 <==> w in ws2) && (forall s :: s in ss1 <==> s in ss2)
    ensures v1.Overhead? <==> v2.Overhead?
    ensures v1.OnlyStaleOverhead? <==> v2.OnlyStaleOverhead?
    ensures v1.Overhead? ==> v1.candidate.los == v2.candidate.los && v1.candidate.norad == v2.candidate.norad
                             && v1.candidate.station == v2.candidate.station
  {
    forall w ensures Deliverable(w, ss1, now) <==> Deliverable(w, ss2, now) {
      assert TooStale(ss1, w.norad, now) <==> TooStale(ss2, w.norad, now);
    }
    if v1.Overhead? && v2.Overhead? { EarlierIsAnOrder(v1.candidate, v2.candidate, v1.candidate); }
  }

  /** The candidate leaves first: no deliverable window ends earlier, and ties go to the smaller NORAD, then station. */
  lemma CandidateLeavesFirst(c: Window, windows: seq<Window>, states: seq<ElementState>, now: Instant, w: Window)
    requires Correct(Overhead(c), windows, states, now) && w in windows && Deliverable(w, states, now)
    ensures c.aos <= now < c.los <= w.los
    ensures c.los == w.los ==> c.norad <= w.norad
    ensures c.los == w.los && c.norad == w.norad ==> c.station == w.station || StringLess(c.station, w.station)
  {
    assert !Earlier(w, c);
    StringOrderTotal(c.station, w.station);
  }

  /** What can be delivered: a window that is open now, unless its satellite has elements more than seven days old. */
  lemma DeliverableExactly(w: Window, states: seq<ElementState>, now: Instant)
    ensures Deliverable(w, states, now) <==>
      w.aos <= now && now < w.los && (w.norad == 0 || forall s | s in states && s.norad == w.norad :: now - s.sourceEpoch <= 7 * 24 * HOUR)
  {
  }
}

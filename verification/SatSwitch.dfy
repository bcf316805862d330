/**
 The satellite-switch command that rides with a runtime push (pushRuntimeEphemeris and satSwitchIntentDigest in
 internal/controller/ntncellconfig_controller.go): attached only when its digest differs from the recorded one.
 */
module SatSwitch {
  import opened Prelude

  /** The intent of a pending switch; the digest is injective, so the intent stands for its own digest. */
  type Intent = string

  /** What a push depends on besides the switch: the cell's generation and the content marker of the state. */
  datatype Marker = Marker(generation: nat, state: string)

  /** `intent` is spec.ntn.satSwitchWithResync; the rest is status. */
  datatype Cell = Cell(generation: nat, intent: Option<Intent>, recorded: Option<Intent>, pushed: Option<Marker>)

  /**
   A frame on the wire: the content marker of its state, the switch wanted by the version of the cell it was computed from, the switch it carried, and
   whether its status write was kept. A write is accepted only over the newest version, so a kept one is version `readAt + 1`.
   */
  datatype Frame = Frame(state: string, intent: Option<Intent>, carried: Option<Intent>, readAt: nat, kept: bool)

  /** One pass through the push once the gates are open. */
  datatype Attempt = UpToDate | SendFailed | Sent(carried: Option<Intent>)

  function Carried(c: Cell): Option<Intent> {
    if c.intent.Some? && c.intent != c.recorded then c.intent else None
  }

  function AttemptOf(c: Cell, state: string, sends: bool): Attempt {
    if c.pushed == Some(Marker(c.generation, state)) then UpToDate
    else if !sends then SendFailed
    else Sent(Carried(c))
  }

  /** cc.Status as the push mutates it. */
  class CellStatus {
    var recorded: Option<Intent>
    var pushed: Option<Marker>

    constructor (c: Cell)
      ensures recorded == c.recorded && pushed == c.pushed
    {
      recorded, pushed := c.recorded, c.pushed;
    }

    method Push(generation: nat, intent: Option<Intent>, state: string, sends: bool) returns (r: Attempt)
      modifies this
      ensures r == AttemptOf(Cell(generation, intent, old(recorded), old(pushed)), state, sends)
      ensures r.Sent? ==> recorded == intent && pushed == Some(Marker(generation, state))
      ensures r.SendFailed? ==> recorded == old(recorded) && pushed == None
      ensures r.UpToDate? ==> recorded == old(recorded) && pushed == old(pushed)
    {
      if pushed == Some(Marker(generation, state)) {
        return UpToDate;
      }
      var switchDigest, attached: Option<Intent> := None, None;
      if intent.Some? {
        switchDigest := intent;
        if switchDigest != recorded {
          attached := intent;
        }
      }
      if !sends {
        pushed := None;
        return SendFailed;
      }
      recorded := switchDigest;
      pushed := Some(Marker(generation, state));
      return Sent(attached);
    }
  }

  // ---- runs ------------------------------------------------------------------------------------------------

  /** Every version of the cell, and the frames in the order they went out. */
  datatype World = World(cells: seq<Cell>, frames: seq<Frame>)

  /**
   A reconcile works on any version of the cell (a lagging cache) and its status write may be lost. `Other` is one that
   ends without a runtime push: a closed gate clears the marker, the ConfigMap path sets its own, and an earlier return
   leaves it alone.
   */
  datatype Action =
    | SetIntent(intent: Option<Intent>)
    | Other(readAt: nat, pushed: Option<Marker>, kept: bool)
    | TryPush(readAt: nat, state: string, sends: bool, kept: bool)

  const NEW := Cell(1, None, None, None)
  const START := World([NEW], [])

  function Newest(w: World): Cell
    requires w.cells != []
  {
    w.cells[|w.cells| - 1]
  }

  /** Optimistic concurrency: only the newest version can be written over. */
  predicate Accepted(w: World, readAt: nat, kept: bool) {
    kept && readAt + 1 == |w.cells|
  }

  /** The status write of a reconcile that read version `readAt`. */
  function Written(w: World, readAt: nat, c: Cell, kept: bool): World {
    if Accepted(w, readAt, kept) then w.(cells := w.cells + [c]) else w
  }

  /** The spec edit bumps the generation. */
  function Edited(w: World, i: Option<Intent>): World
    requires w.cells != []
  {
    w.(cells := w.cells + [Newest(w).(generation := Newest(w).generation + 1, intent := i)])
  }

  /** A read of a version that does not exist yet is no step. */
  function Step(w: World, a: Action): World
    requires w.cells != []
  {
    if !a.SetIntent? && a.readAt >= |w.cells| then w
    else
      match a
      case SetIntent(i) => Edited(w, i)
      case Other(readAt, pushed, kept) => Written(w, readAt, w.cells[readAt].(pushed := pushed), kept)
      case TryPush(readAt, state, sends, kept) =>
        var c := w.cells[readAt];
        match AttemptOf(c, state, sends)
        case UpToDate => w
        case SendFailed => Written(w, readAt, c.(pushed := None), kept)
        case Sent(carried) =>
          Written(w, readAt, c.(recorded := c.intent, pushed := Some(Marker(c.generation, state))), kept)
            .(frames := w.frames + [Frame(state, c.intent, carried, readAt, Accepted(w, readAt, kept))])
  }

  function Run(w: World, trace: seq<Action>): (v: World)
    requires w.cells != []
    ensures v.cells != []
  {
    if trace == [] then w else Step(Run(w, trace[..|trace| - 1]), trace[|trace| - 1])
  }

  // ---- which switch a frame carries --------------------------------------------------------------------------------

  /** The switch wanted at the last frame whose kept write is version `v` or older. */
  function Visible(frames: seq<Frame>, v: nat): Option<Intent> {
    if frames == [] then None
    else
      var last := frames[|frames| - 1];
      if last.kept && last.readAt < v then last.intent else Visible(frames[..|frames| - 1], v)
  }

  function Changed(now: Option<Intent>, than: Option<Intent>): Option<Intent> {
    if now.Some? && now != than then now else None
  }

  /** Status records, in every version, the switch of the last frame whose write that version contains. */
  predicate RecordsVisible(w: World) {
    forall v | 0 <= v < |w.cells| :: w.cells[v].recorded == Visible(w.frames, v)
  }

  /** A frame carries the switch of the version it read exactly when that version does not record it. */
  predicate CarriesUnseen(w: World) {
    forall i | 0 <= i < |w.frames| :: var f := w.frames[i];
      f.readAt < |w.cells| && f.intent == w.cells[f.readAt].intent && f.carried == Changed(f.intent, Visible(w.frames, f.readAt))
  }

  /** A kept write is in the store, and a frame whose write is kept read no older version than any frame before it. */
  predicate InOrder(w: World) {
    && (forall i | 0 <= i < |w.frames| :: w.frames[i].kept ==> w.frames[i].readAt + 1 < |w.cells|)
    && (forall i, j | 0 <= i < j < |w.frames| && w.frames[j].kept ::
          w.frames[i].readAt < w.frames[j].readAt || (w.frames[i].readAt == w.frames[j].readAt && !w.frames[i].kept))
  }

  predicate Traced(w: World) {
    w.cells != [] && RecordsVisible(w) && CarriesUnseen(w) && InOrder(w)
  }

  /** Versions that contain all kept writes show the same switch. */
  lemma {:induction false} VisibleLater(frames: seq<Frame>, v: nat, v': nat)
    requires v <= v' && forall f | f in frames :: f.kept ==> f.readAt < v
    ensures Visible(frames, v) == Visible(frames, v')
  {
    if frames != [] {
      VisibleLater(frames[..|frames| - 1], v, v');
    }
  }

  /** A version that contains the write of none of the later frames shows what the earlier ones left. */
  lemma {:induction false} VisibleBefore(frames: seq<Frame>, n: nat, v: nat)
    requires n <= |frames| && forall i | n <= i < |frames| :: frames[i].kept ==> v <= frames[i].readAt
    ensures Visible(frames, v) == Visible(frames[..n], v)
    decreases |frames|
  {
    if n < |frames| {
      var k := |frames| - 1;
      VisibleBefore(frames[..k], n, v);
      assert frames[..k][..n] == frames[..n];
    } else {
      assert frames[..n] == frames;
    }
  }

  /** A new version that records what the newest one does. */
  lemma AppendTraced(w: World, c: Cell)
    requires Traced(w) && c.recorded == Newest(w).recorded
    ensures Traced(w.(cells := w.cells + [c]))
  {
    VisibleLater(w.frames, |w.cells| - 1, |w.cells|);
  }

  lemma SendTraced(w: World, a: Action)
    requires Traced(w) && a.TryPush? && a.readAt < |w.cells| && AttemptOf(w.cells[a.readAt], a.state, a.sends).Sent?
    ensures Traced(Step(w, a))
  {
    var v := Step(w, a);
    var f := v.frames[|w.frames|];
    assert v.frames[..|w.frames|] == w.frames;
    forall r | 0 <= r < |w.cells| ensures Visible(v.frames, r) == Visible(w.frames, r) {}
    forall i | 0 <= i < |v.frames|
      ensures v.frames[i].readAt < |v.cells| && v.frames[i].intent == v.cells[v.frames[i].readAt].intent
      ensures v.frames[i].carried == Changed(v.frames[i].intent, Visible(v.frames, v.frames[i].readAt))
    {
      assert i < |w.frames| ==> v.frames[i] == w.frames[i];
    }
  }

  lemma StepTraced(w: World, a: Action)
    requires Traced(w)
    ensures Traced(Step(w, a))
  {
    if a.SetIntent? || a.readAt < |w.cells| {
      match a
      case SetIntent(i) => AppendTraced(w, Newest(w).(generation := Newest(w).generation + 1, intent := i));
      case Other(readAt, pushed, kept) => if Accepted(w, readAt, kept) { AppendTraced(w, w.cells[readAt].(pushed := pushed)); }
      case TryPush(readAt, state, sends, kept) =>
        var c := w.cells[readAt];
        if AttemptOf(c, state, sends).Sent? {
          SendTraced(w, a);
        } else if Accepted(w, readAt, kept) {
          AppendTraced(w, c.(pushed := None));
        }
    }
  }

  lemma {:induction false} RunTraced(w: World, trace: seq<Action>)
    requires Traced(w)
    ensures Traced(Run(w, trace))
  {
    if trace != [] {
      RunTraced(w, trace[..|trace| - 1]);
      StepTraced(Run(w, trace[..|trace| - 1]), trace[|trace| - 1]);
    }
  }

  ghost predicate Reachable(w: World) {
    w.cells != [] && exists trace :: Run(START, trace) == w
  }

  lemma ReachableTraced(w: World)
    requires Reachable(w)
    ensures Traced(w)
  {
    var trace :| Run(START, trace) == w;
    RunTraced(START, trace);
  }

  /**
   In every run, with stale reads and lost writes at will: each version of the cell records the switch of the last frame
   whose write it contains, and a frame carries its switch if and only if that differs from the one recorded in the
   version it read. Nothing that went out later shows in that version.
   */
  lemma SwitchRidesUntilSeen(trace: seq<Action>)
    ensures var w := Run(START, trace); RecordsVisible(w) && CarriesUnseen(w)
    ensures var fs := Run(START, trace).frames;
      forall i | 0 <= i < |fs| :: fs[i].carried == Changed(fs[i].intent, Visible(fs[..i], fs[i].readAt))
  {
    RunTraced(START, trace);
    var fs := Run(START, trace).frames;
    forall i | 0 <= i < |fs| ensures Visible(fs, fs[i].readAt) == Visible(fs[..i], fs[i].readAt) {
      VisibleBefore(fs, i, fs[i].readAt);
    }
  }

  /**
   When two frames in a row want the same switch and the first carried it, the second carries it again exactly when the
   version it read does not show it. If the first one's write was kept and reads do not go back, that is exactly when both
   read the same version.
   */
  lemma RepeatedExactlyWhenUnseen(trace: seq<Action>, i: nat)
    requires 0 < i < |Run(START, trace).frames|
    requires var fs := Run(START, trace).frames; fs[i - 1].carried.Some? && fs[i].intent == fs[i - 1].carried
    ensures var fs := Run(START, trace).frames; var again := fs[i].carried == fs[i - 1].carried;
      && (again <==> Visible(fs[..i], fs[i].readAt) != fs[i - 1].carried)
      && (fs[i - 1].kept && fs[i - 1].readAt < fs[i].readAt ==> !again)
      && (fs[i].readAt == fs[i - 1].readAt ==> again)
  {
    SwitchRidesUntilSeen(trace);
    RunTraced(START, trace);
    assert Run(START, trace).frames[..i][i - 1] == Run(START, trace).frames[i - 1];
  }

  // ---- kept frames deliver each change once -----------------------------------------------------------------------

  /** The frames whose status write was kept. */
  function Kept(frames: seq<Frame>): seq<Frame> {
    if frames == [] then []
    else Kept(frames[..|frames| - 1]) + if frames[|frames| - 1].kept then [frames[|frames| - 1]] else []
  }

  /** The switch wanted at the previous frame. */
  function Previous(frames: seq<Frame>, i: nat): Option<Intent>
    requires i <= |frames|
  {
    if i == 0 then None else frames[i - 1].intent
  }

  /** A frame carries the switch exactly when the wanted switch changed since the previous frame. */
  predicate CarriesChanges(frames: seq<Frame>) {
    forall i | 0 <= i < |frames| :: frames[i].carried == Changed(frames[i].intent, Previous(frames, i))
  }

  lemma {:induction false} AllKept(frames: seq<Frame>)
    requires forall f | f in frames :: f.kept
    ensures Kept(frames) == frames
  {
    if frames != [] {
      var n := |frames| - 1;
      assert frames[n] in frames && forall f | f in frames[..n] :: f in frames;
      AllKept(frames[..n]);
      assert frames == frames[..n] + [frames[n]];
    }
  }

  /** Among the kept frames each carries a change, and the newest version records the last of them. */
  predicate KeptInStep(w: World) {
    w.cells != [] && CarriesChanges(Kept(w.frames)) && Newest(w).recorded == Previous(Kept(w.frames), |Kept(w.frames)|)
  }

  /** A step sends at most one frame, and moves the recorded switch only when that frame's write is kept. */
  lemma StepFrames(w: World, a: Action)
    requires w.cells != []
    ensures var v := Step(w, a);
      || (v.frames == w.frames && Newest(v).recorded == Newest(w).recorded)
      || (|v.frames| == |w.frames| + 1 && v.frames == w.frames + [v.frames[|w.frames|]]
          && var f := v.frames[|w.frames|];
             if f.kept then f.carried == Changed(f.intent, Newest(w).recorded) && Newest(v).recorded == f.intent
             else Newest(v).recorded == Newest(w).recorded)
  {
  }

  lemma KeptAppend(frames: seq<Frame>, f: Frame)
    ensures Kept(frames + [f]) == if f.kept then Kept(frames) + [f] else Kept(frames)
  {
    assert (frames + [f])[..|frames|] == frames;
  }

  lemma StepKept(w: World, a: Action)
    requires KeptInStep(w)
    ensures KeptInStep(Step(w, a))
  {
    StepFrames(w, a);
    var v := Step(w, a);
    if v.frames != w.frames {
      var f := v.frames[|w.frames|];
      KeptAppend(w.frames, f);
      if f.kept {
        CarriesAppend(Kept(w.frames), f);
      }
    }
  }

  lemma CarriesAppend(frames: seq<Frame>, f: Frame)
    requires CarriesChanges(frames) && f.carried == Changed(f.intent, Previous(frames, |frames|))
    ensures CarriesChanges(frames + [f]) && Previous(frames + [f], |frames| + 1) == f.intent
  {
    var more := frames + [f];
    forall i | 0 <= i < |more| ensures more[i].carried == Changed(more[i].intent, Previous(more, i)) {
      assert i < |frames| ==> Previous(more, i) == Previous(frames, i);
    }
  }

  lemma {:induction false} RunKept(w: World, trace: seq<Action>)
    requires KeptInStep(w)
    ensures KeptInStep(Run(w, trace))
  {
    if trace != [] {
      RunKept(w, trace[..|trace| - 1]);
      StepKept(Run(w, trace[..|trace| - 1]), trace[|trace| - 1]);
    }
  }

  /**
   In every run, among the frames whose status write was kept, a frame carries the switch exactly when it differs from
   the one wanted at the previous such frame, whatever stale reads and lost writes came in between.
   */
  lemma SwitchRidesOnChange(trace: seq<Action>)
    ensures KeptInStep(Run(START, trace))
    ensures var fs := Run(START, trace).frames; (forall f | f in fs :: f.kept) ==> CarriesChanges(fs)
  {
    RunKept(START, trace);
    var fs := Run(START, trace).frames;
    if forall f | f in fs :: f.kept {
      AllKept(fs);
    }
  }

  /** The switches delivered, in order. */
  function Delivered(frames: seq<Frame>): seq<Intent> {
    if frames == [] then []
    else
      var last := frames[|frames| - 1];
      Delivered(frames[..|frames| - 1]) + if last.carried.Some? then [last.carried.value] else []
  }

  /** The wanted switches of the frames, each run of equal ones counted once. */
  function Wanted(frames: seq<Frame>): seq<Intent> {
    if frames == [] then []
    else
      var n := |frames| - 1;
      Wanted(frames[..n]) + if Changed(frames[n].intent, Previous(frames, n)).Some? then [frames[n].intent.value] else []
  }

  lemma {:induction false} ChangesAreDelivered(frames: seq<Frame>)
    requires CarriesChanges(frames)
    ensures Delivered(frames) == Wanted(frames)
  {
    if frames != [] {
      var n := |frames| - 1;
      forall i | 0 <= i < n ensures Previous(frames[..n], i) == Previous(frames, i) && frames[..n][i] == frames[i] {}
      ChangesAreDelivered(frames[..n]);
    }
  }

  /**
   In every run the switches delivered by the frames whose write was kept are exactly the wanted ones, each change once;
   so only a frame whose write was lost can repeat a switch. If every write is kept this is all of them.
   */
  lemma EachChangeIsDeliveredOnce(trace: seq<Action>)
    ensures var fs := Run(START, trace).frames; Delivered(Kept(fs)) == Wanted(Kept(fs))
    ensures var fs := Run(START, trace).frames; (forall f | f in fs :: f.kept) ==> Delivered(fs) == Wanted(fs)
  {
    SwitchRidesOnChange(trace);
    ChangesAreDelivered(Kept(Run(START, trace).frames));
    if forall f | f in Run(START, trace).frames :: f.kept {
      AllKept(Run(START, trace).frames);
    }
  }

  // ---- while the wanted switch does not change --------------------------------------------------------------------

  predicate NoEdits(trace: seq<Action>) {
    forall i | 0 <= i < |trace| :: !trace[i].SetIntent?
  }

  /** Version `v` contains the write of a frame at or after the n-th. */
  predicate SeenSince(frames: seq<Frame>, n: nat, v: nat) {
    exists i | n <= i < |frames| :: frames[i].kept && frames[i].readAt < v
  }

  lemma SeenAppend(frames: seq<Frame>, f: Frame, n: nat, v: nat)
    requires n <= |frames|
    ensures SeenSince(frames + [f], n, v) <==> SeenSince(frames, n, v) || (f.kept && f.readAt < v)
  {
    var more := frames + [f];
    if SeenSince(frames, n, v) {
      var i :| n <= i < |frames| && frames[i].kept && frames[i].readAt < v;
      assert more[i].kept && more[i].readAt < v;
    }
    if f.kept && f.readAt < v {
      assert more[|frames|].kept;
    }
  }

  /** What a version at or after the edit wants, and what it records. */
  predicate HoldsSince(v: World, w: World, r: nat)
    requires w.cells != [] && r < |v.cells|
  {
    && v.cells[r].intent == Newest(w).intent
    && v.cells[r].recorded == if SeenSince(v.frames, |w.frames|, r) then Newest(w).intent else Newest(w).recorded
  }

  predicate Unedited(v: World, w: World)
    requires w.cells != []
  {
    && w.cells <= v.cells && w.frames <= v.frames
    && (forall i | |w.frames| <= i < |v.frames| :: v.frames[i].kept ==> |w.cells| - 1 <= v.frames[i].readAt < |v.cells| - 1)
    && forall r | |w.cells| - 1 <= r < |v.cells| :: HoldsSince(v, w, r)
  }

  /** A version added after all kept writes sees what the one before it sees. */
  lemma SeenLater(v: World, n: nat)
    requires v.cells != [] && forall i | n <= i < |v.frames| :: v.frames[i].kept ==> v.frames[i].readAt < |v.cells| - 1
    ensures SeenSince(v.frames, n, |v.cells|) <==> SeenSince(v.frames, n, |v.cells| - 1)
  {
  }

  lemma AppendUnedited(v: World, w: World, c: Cell)
    requires w.cells != [] && Unedited(v, w) && c.intent == Newest(v).intent && c.recorded == Newest(v).recorded
    ensures Unedited(v.(cells := v.cells + [c]), w)
  {
    SeenLater(v, |w.frames|);
    assert HoldsSince(v, w, |v.cells| - 1);
    var u := v.(cells := v.cells + [c]);
    forall r | |w.cells| - 1 <= r < |u.cells| ensures HoldsSince(u, w, r) {
      assert r < |v.cells| ==> HoldsSince(v, w, r);
    }
  }

  lemma SendUnedited(v: World, w: World, a: Action)
    requires w.cells != [] && Unedited(v, w)
    requires a.TryPush? && a.readAt < |v.cells| && AttemptOf(v.cells[a.readAt], a.state, a.sends).Sent?
    ensures Unedited(Step(v, a), w)
  {
    var u := Step(v, a);
    var f := u.frames[|v.frames|];
    assert HoldsSince(v, w, |v.cells| - 1);
    forall r | |w.cells| - 1 <= r < |u.cells| ensures HoldsSince(u, w, r) {
      SeenAppend(v.frames, f, |w.frames|, r);
      assert r < |v.cells| ==> HoldsSince(v, w, r);
    }
  }

  lemma {:induction false} WhileUnedited(w: World, trace: seq<Action>)
    requires w.cells != [] && NoEdits(trace)
    ensures Unedited(Run(w, trace), w)
  {
    if trace == [] {
      assert forall r | |w.cells| - 1 <= r < |w.cells| :: HoldsSince(w, w, r);
    } else {
      var a, v := trace[|trace| - 1], Run(w, trace[..|trace| - 1]);
      WhileUnedited(w, trace[..|trace| - 1]);
      if a.readAt < |v.cells| {
        if a.TryPush? && AttemptOf(v.cells[a.readAt], a.state, a.sends).Sent? {
          SendUnedited(v, w, a);
        } else if Accepted(v, a.readAt, a.kept) && !(a.TryPush? && AttemptOf(v.cells[a.readAt], a.state, a.sends).UpToDate?) {
          AppendUnedited(v, w, v.cells[a.readAt].(pushed := if a.Other? then a.pushed else None));
        }
      }
    }
  }

  /** `v` is reached from `w` while the wanted switch is not edited. */
  ghost predicate Reached(w: World, v: World) {
    w.cells != [] && exists trace :: NoEdits(trace) && Run(w, trace) == v
  }

  lemma ReachedFacts(w: World, v: World)
    requires Traced(w) && Reached(w, v)
    ensures Traced(v) && Unedited(v, w)
  {
    var trace :| NoEdits(trace) && Run(w, trace) == v;
    RunTraced(w, trace);
    WhileUnedited(w, trace);
  }

  /** What the newest version wants and records. */
  lemma NewestSince(w: World, v: World)
    requires Traced(w) && Reached(w, v)
    ensures Traced(v) && Newest(v).intent == Newest(w).intent
    ensures Newest(v).recorded == if SeenSince(v.frames, |w.frames|, |v.cells| - 1) then Newest(w).intent else Newest(w).recorded
  {
    ReachedFacts(w, v);
    assert HoldsSince(v, w, |v.cells| - 1);
  }

  /** The switch carried by a frame that reads a version at or after the newest one of `w`. */
  lemma CarriedSince(w: World, v: World, i: nat)
    requires Traced(w) && Reached(w, v) && i < |v.frames| && v.frames[i].readAt >= |w.cells| - 1
    ensures v.frames[i].carried == Changed(Newest(w).intent,
      if SeenSince(v.frames, |w.frames|, v.frames[i].readAt) then Newest(w).intent else Newest(w).recorded)
  {
    ReachedFacts(w, v);
    assert HoldsSince(v, w, v.frames[i].readAt);
  }

  /**
   From any world that a run reaches and whose newest version wants a switch it does not record, through any refusals,
   failures, stale reads and lost writes: the newest version records the switch exactly when the write of some frame sent
   since was kept.
   */
  lemma RecordedExactlyOnceKept(w: World, x: Intent, v: World)
    requires Reachable(w) && Newest(w).intent == Some(x) && Newest(w).recorded != Some(x) && Reached(w, v)
    ensures Traced(v) && (Newest(v).recorded == Some(x) <==> SeenSince(v.frames, |w.frames|, |v.cells| - 1))
  {
    ReachableTraced(w);
    NewestSince(w, v);
  }

  /**
   And a frame that reads that version or a later one carries the switch if and only if the version it read contains the
   write of no frame sent since; so the first such frame does, and every further one until a kept write is seen.
   */
  lemma PendingRidesUntilSeen(w: World, x: Intent, v: World, i: nat)
    requires Reachable(w) && Newest(w).intent == Some(x) && Newest(w).recorded != Some(x) && Reached(w, v)
    requires i < |v.frames| && v.frames[i].readAt >= |w.cells| - 1
    ensures v.frames[i].carried == Some(x) <==> !SeenSince(v.frames, |w.frames|, v.frames[i].readAt)
  {
    ReachableTraced(w);
    CarriedSince(w, v, i);
  }

  // ---- which states go out -----------------------------------------------------------------------------------------

  /**
   A push that succeeds sends its state exactly when the version it read does not show that very state as pushed for its
   own generation; a push that fails sends nothing.
   */
  lemma SentExactlyWhenNew(w: World, a: Action)
    requires w.cells != [] && a.TryPush? && a.readAt < |w.cells|
    ensures var c := w.cells[a.readAt];
      Step(w, a).frames == w.frames +
        if a.sends && c.pushed != Some(Marker(c.generation, a.state))
        then [Frame(a.state, c.intent, Changed(c.intent, c.recorded), a.readAt, Accepted(w, a.readAt, a.kept))] else []
  {
  }

  /** What a cell lives through: a spec edit, a reconcile that finds a gate closed, or one that has a state to offer. */
  datatype Event = Edit(intent: Option<Intent>) | Closed | Offers(state: string)

  function ActionOf(w: World, e: Event): Action
    requires w.cells != []
  {
    match e
    case Edit(i) => SetIntent(i)
    case Closed => Other(|w.cells| - 1, None, true)
    case Offers(state) => TryPush(|w.cells| - 1, state, true, true)
  }

  /** With the newest version read, the gNB in reach and no write lost. */
  function Live(w: World, events: seq<Event>): (v: World)
    requires w.cells != []
    ensures v.cells != []
  {
    if events == [] then w
    else
      var before := Live(w, events[..|events| - 1]);
      Step(before, ActionOf(before, events[|events| - 1]))
  }

  /** The offers that differ from the event just before them. */
  function News(last: Event, events: seq<Event>): seq<string> {
    if events == [] then []
    else
      var n := |events| - 1;
      News(last, events[..n]) + if events[n].Offers? && events[n] != LastOf(last, events[..n]) then [events[n].state] else []
  }

  function LastOf(last: Event, events: seq<Event>): Event {
    if events == [] then last else events[|events| - 1]
  }

  function StatesOf(frames: seq<Frame>): (r: seq<string>)
    ensures |r| == |frames|
  {
    seq(|frames|, i requires 0 <= i < |frames| => frames[i].state)
  }

  /** The cell shows a state of this generation as pushed exactly when the last event offered it. */
  predicate ShowsLast(w: World, last: Event) {
    && w.cells != []
    && match last
       case Offers(state) => Newest(w).pushed == Some(Marker(Newest(w).generation, state))
       case _ => Newest(w).pushed.None? || Newest(w).pushed.value.generation != Newest(w).generation
  }

  /** No version shows a push of a generation that is still to come. */
  predicate NotAhead(w: World) {
    w.cells != [] && (Newest(w).pushed.Some? ==> Newest(w).pushed.value.generation <= Newest(w).generation)
  }

  lemma LiveStep(w: World, last: Event, e: Event)
    requires ShowsLast(w, last) && NotAhead(w)
    ensures var v := Step(w, ActionOf(w, e));
      && ShowsLast(v, e) && NotAhead(v)
      && StatesOf(v.frames) == StatesOf(w.frames) + if e.Offers? && e != last then [e.state] else []
  {
    var v := Step(w, ActionOf(w, e));
    if e.Offers? {
      SentExactlyWhenNew(w, ActionOf(w, e));
    }
  }

  /**
   Every new state that is offered goes out, once: the states on the wire are exactly the offers that differ from the event
   before them. The same state is offered any number of times without a second frame, until an edit or a closed gate.
   */
  lemma {:induction false} EachStateGoesOutOnce(w: World, last: Event, events: seq<Event>)
    requires ShowsLast(w, last) && NotAhead(w)
    ensures var v := Live(w, events);
      ShowsLast(v, LastOf(last, events)) && NotAhead(v) && StatesOf(v.frames) == StatesOf(w.frames) + News(last, events)
  {
    if events != [] {
      var n := |events| - 1;
      EachStateGoesOutOnce(w, last, events[..n]);
      LiveStep(Live(w, events[..n]), LastOf(last, events[..n]), events[n]);
    }
  }

  // ---- the limits ----------------------------------------------------------------------------------------------

  /** `worlds` is what `trace` goes through. */
  predicate Along(worlds: seq<World>, trace: seq<Action>) {
    && |worlds| == |trace| + 1 && (forall i | 0 <= i < |worlds| :: worlds[i].cells != [])
    && forall i | 0 <= i < |trace| :: Step(worlds[i], trace[i]) == worlds[i + 1]
  }

  lemma {:induction false} RunAlong(worlds: seq<World>, trace: seq<Action>)
    requires Along(worlds, trace)
    ensures Run(worlds[0], trace) == worlds[|trace|]
  {
    if trace != [] {
      RunAlong(worlds[..|trace|], trace[..|trace| - 1]);
    }
  }

  /** The cell with a switch wanted, with that switch pushed and recorded, removed, and added again. */
  function Asking(x: Intent): Cell { Cell(2, Some(x), None, None) }
  function Served(x: Intent): Cell { Cell(2, Some(x), Some(x), Some(Marker(2, "s1"))) }
  function Removed(x: Intent): Cell { Cell(3, None, Some(x), Some(Marker(2, "s1"))) }
  function ReAdded(x: Intent): Cell { Cell(4, Some(x), Some(x), None) }

  function Asked(x: Intent): World { World([NEW, Asking(x)], []) }
  function SentOnce(x: Intent): World { World([NEW, Asking(x), Served(x)], [Frame("s1", Some(x), Some(x), 1, true)]) }

  lemma FirstSteps(x: Intent)
    ensures Step(START, SetIntent(Some(x))) == Asked(x)
    ensures Step(Asked(x), TryPush(1, "s1", true, true)) == SentOnce(x)
    ensures Step(Asked(x), TryPush(1, "s1", true, false)) == World(Asked(x).cells, [Frame("s1", Some(x), Some(x), 1, false)])
  {
  }

  /** The simplest loss: the next heartbeat sends the same switch again. */
  lemma LostWriteResends(x: Intent)
    ensures Run(START, [SetIntent(Some(x)), TryPush(1, "s1", true, false), TryPush(1, "s2", true, true)]).frames
      == [Frame("s1", Some(x), Some(x), 1, false), Frame("s2", Some(x), Some(x), 1, true)]
  {
    FirstSteps(x);
    var lost := World(Asked(x).cells, [Frame("s1", Some(x), Some(x), 1, false)]);
    var last := Step(lost, TryPush(1, "s2", true, true));
    assert last.frames == [Frame("s1", Some(x), Some(x), 1, false), Frame("s2", Some(x), Some(x), 1, true)];
    RunAlong([START, Asked(x), lost, last], [SetIntent(Some(x)), TryPush(1, "s1", true, false), TryPush(1, "s2", true, true)]);
  }

  /**
   A lagging cache sends a switch again although its first write was kept; and once the cache has caught up, the next frame
   does not, although the write of the frame before it was lost.
   */
  lemma StaleReadResends(x: Intent)
    ensures Run(START, [SetIntent(Some(x)), TryPush(1, "s1", true, true), TryPush(1, "s2", true, true), TryPush(2, "s3", true, true)]).frames
      == [Frame("s1", Some(x), Some(x), 1, true), Frame("s2", Some(x), Some(x), 1, false), Frame("s3", Some(x), None, 2, true)]
  {
    FirstSteps(x);
    var again := World(SentOnce(x).cells, [Frame("s1", Some(x), Some(x), 1, true), Frame("s2", Some(x), Some(x), 1, false)]);
    assert Step(SentOnce(x), TryPush(1, "s2", true, true)) == again;
    var last := Step(again, TryPush(2, "s3", true, true));
    assert last.frames == [Frame("s1", Some(x), Some(x), 1, true), Frame("s2", Some(x), Some(x), 1, false), Frame("s3", Some(x), None, 2, true)];
    RunAlong([START, Asked(x), SentOnce(x), again, last],
             [SetIntent(Some(x)), TryPush(1, "s1", true, true), TryPush(1, "s2", true, true), TryPush(2, "s3", true, true)]);
  }

  function Removal(x: Intent): World { World(SentOnce(x).cells + [Removed(x)], SentOnce(x).frames) }
  function Failing(x: Intent): World { World(Removal(x).cells + [Removed(x).(pushed := None)], SentOnce(x).frames) }
  function Return(x: Intent): World { World(Failing(x).cells + [ReAdded(x)], SentOnce(x).frames) }

  lemma ReAddingSteps(x: Intent)
    ensures Step(SentOnce(x), SetIntent(None)) == Removal(x)
    ensures Step(Removal(x), TryPush(3, "s2", false, true)) == Failing(x)
    ensures Step(Failing(x), SetIntent(Some(x))) == Return(x)
    ensures Step(Return(x), TryPush(5, "s3", true, true)).frames == [Frame("s1", Some(x), Some(x), 1, true), Frame("s3", Some(x), None, 5, true)]
  {
  }

  /**
   A switch that is removed and added again is not sent a second time unless a push went through while it was absent:
   here the only push in between failed. No write is lost and every read is of the newest version.
   */
  lemma ReAddedSwitchIsNotResent(x: Intent)
    ensures Run(START, [SetIntent(Some(x)), TryPush(1, "s1", true, true), SetIntent(None), TryPush(3, "s2", false, true),
                        SetIntent(Some(x)), TryPush(5, "s3", true, true)]).frames
      == [Frame("s1", Some(x), Some(x), 1, true), Frame("s3", Some(x), None, 5, true)]
  {
    FirstSteps(x);
    ReAddingSteps(x);
    RunAlong([START, Asked(x), SentOnce(x), Removal(x), Failing(x), Return(x), Step(Return(x), TryPush(5, "s3", true, true))],
             [SetIntent(Some(x)), TryPush(1, "s1", true, true), SetIntent(None), TryPush(3, "s2", false, true),
              SetIntent(Some(x)), TryPush(5, "s3", true, true)]);
  }

  /**
   Exactly when a re-added switch is sent, whatever pushes, failures, refused gates, stale reads and lost writes happen
   while it is absent and after it was added again. A frame that reads a version with the re-added switch carries it if
   and only if some frame that went out while it was absent had its write kept, and the version read contains the write
   of no frame sent since the re-adding.
   */
  lemma ReAddedSwitchExactly(w: World, x: Intent, absent: World, u: World, v: World, i: nat)
    requires Reachable(w) && Newest(w).recorded == Some(x) && Newest(w).intent == None
    requires Reached(w, absent) && absent.cells != [] && u == Edited(absent, Some(x)) && Reached(u, v)
    requires i < |v.frames| && v.frames[i].readAt >= |u.cells| - 1
    ensures v.frames[i].carried == Some(x) <==>
      SeenSince(u.frames, |w.frames|, |u.cells| - 1) && !SeenSince(v.frames, |u.frames|, v.frames[i].readAt)
  {
    ReachableTraced(w);
    NewestSince(w, absent);
    EditKeeps(absent, |w.frames|, Some(x));
    CarriedSince(u, v, i);
  }

  /** An edit changes nothing in what is recorded and seen. */
  lemma EditKeeps(m: World, n: nat, intent: Option<Intent>)
    requires Traced(m)
    ensures var u := Edited(m, intent);
      && Traced(u) && Newest(u).intent == intent && Newest(u).recorded == Newest(m).recorded && u.frames == m.frames
      && (SeenSince(u.frames, n, |u.cells| - 1) <==> SeenSince(m.frames, n, |m.cells| - 1))
  {
    AppendTraced(m, Newest(m).(generation := Newest(m).generation + 1, intent := intent));
    SeenLater(m, n);
  }
}

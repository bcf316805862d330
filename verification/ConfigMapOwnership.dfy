/**
 The ownership protocol over the provider's ConfigMap (ApplyCellConfig, PushEphemerisUpdate and Cleanup in
 pkg/provider/ocudu/provider.go). One object name is shared with actors that may create, change or delete
 it between any two calls of the provider.
 */
module ConfigMapOwnership {
  import opened Prelude
  import opened OcuduConfig

  datatype Ref = Ref(uid: nat, controller: bool)

  /** `managed` stands for both management labels; `foreign` for every other label, annotation and data key. */
  datatype Cm = Cm(uid: nat, version: nat, owners: seq<Ref>, managed: bool, config: Option<string>, koffset: Option<string>, foreign: string)

  /** metav1.GetControllerOf: the first reference marked as controller. */
  function ControllerOf(refs: seq<Ref>): Option<nat> {
    if refs == [] then None
    else if refs[0].controller then Some(refs[0].uid)
    else ControllerOf(refs[1..])
  }

  predicate ControlledBy(cm: Cm, owner: nat) {
    ControllerOf(cm.owners) == Some(owner)
  }

  predicate Adoptable(cm: Cm) {
    cm.owners == [] && cm.managed && cm.config.Some? && cm.config.value != []
  }

  predicate Ours(cm: Cm, owner: nat) {
    ControlledBy(cm, owner) || Adoptable(cm)
  }

  /** `refs[i]` is the first reference marked as controller, and it names `owner`. */
  predicate ControlsAt(refs: seq<Ref>, owner: nat, i: nat) {
    i < |refs| && refs[i] == Ref(owner, true) && forall j | 0 <= j < i :: !refs[j].controller
  }

  lemma {:induction false} ControllerExactly(refs: seq<Ref>, owner: nat)
    ensures ControllerOf(refs) == Some(owner) <==> exists i: nat :: ControlsAt(refs, owner, i)
  {
    if refs != [] {
      if refs[0].controller {
        assert refs[0] == Ref(owner, true) ==> ControlsAt(refs, owner, 0);
      } else {
        ControllerExactly(refs[1..], owner);
        if i: nat :| ControlsAt(refs[1..], owner, i) {
          forall j | 0 <= j < i + 1 ensures !refs[j].controller { assert j > 0 ==> refs[j] == refs[1..][j - 1]; }
          assert ControlsAt(refs, owner, i + 1);
        }
        if i: nat :| ControlsAt(refs, owner, i) {
          forall j | 0 <= j < i - 1 ensures !refs[1..][j].controller { assert refs[1..][j] == refs[j + 1]; }
          assert ControlsAt(refs[1..], owner, i - 1);
        }
      }
    }
  }

  /**
   The provider may touch an object exactly when the first controller reference is its own CR's, or when it has no owner
   at all, carries the management labels and holds a configuration.
   */
  lemma OursExactly(cm: Cm, owner: nat)
    ensures Ours(cm, owner) <==>
      (exists i: nat :: ControlsAt(cm.owners, owner, i)) || (cm.owners == [] && cm.managed && cm.config.Some? && cm.config.value != "")
  {
    ControllerExactly(cm.owners, owner);
  }

  // ---- what the provider decides from the object it has read ----------------------------------------------

  /**
   The CR on whose behalf the provider acts, and the provider's two computations: the configuration a valid
   spec generates, and a configuration with its ephemeris block rewritten (None when it has none).
   */
  datatype Context = Context(owner: nat, generate: Spec -> string, koffset: Spec -> string, rewrite: (Ephemeris, string) -> Option<string>)

  datatype Op = Apply(spec: Spec) | Push(update: Ephemeris)

  datatype Decision = Write(cm: Cm) | Unchanged | NotOwned | Unusable

  function DecideApply(c: Context, s: Spec, cm: Cm): Decision
    requires OneOf(s.ephemeris)
  {
    var desired, koffset := Some(c.generate(s)), Some(c.koffset(s));
    if !Ours(cm, c.owner) then NotOwned
    else if ControlledBy(cm, c.owner) && cm.managed && cm.config == desired && cm.koffset == koffset then Unchanged
    else Write(cm.(owners := if ControlledBy(cm, c.owner) then cm.owners else [Ref(c.owner, true)],
                   managed := true, config := desired, koffset := koffset))
  }

  function DecidePush(c: Context, e: Ephemeris, cm: Cm): Decision
    requires OneOf(e)
  {
    if !ControlledBy(cm, c.owner) then NotOwned
    else if cm.config == None then Unusable
    else
      var updated := c.rewrite(e, cm.config.value);
      if updated == None then Unusable else if updated == cm.config then Unchanged else Write(cm.(config := updated))
  }

  predicate Valid(op: Op) {
    OneOf(if op.Apply? then op.spec.ephemeris else op.update)
  }

  function Decide(c: Context, op: Op, cm: Cm): Decision
    requires Valid(op)
  {
    match op
    case Apply(s) => DecideApply(c, s, cm)
    case Push(e) => DecidePush(c, e, cm)
  }

  function Fresh(c: Context, s: Spec): Cm
    requires OneOf(s.ephemeris)
  {
    Cm(0, 0, [Ref(c.owner, true)], true, Some(c.generate(s)), Some(c.koffset(s)), "")
  }

  // ---- the store, and every interleaving --------------------------------------------------------------------

  /** What the provider did to the store; `checked` is the state it had read. */
  datatype Record =
    | Created(after: Cm)
    | Overwrote(before: Cm, after: Cm)
    | Removed(before: Cm, checked: Cm)

  /** Every state the name has had; the last one is current. */
  datatype World = World(history: seq<Option<Cm>>, nextUid: nat, records: seq<Record>)

  datatype Change = Make(cm: Cm) | Alter(cm: Cm) | Remove

  /** A provider step carries the index of the state it read; other actors do as they like. */
  datatype Action =
    | Others(change: Change)
    | Create(spec: Spec)
    | Update(readAt: nat, op: Op)
    | Delete(readAt: nat)

  const EMPTY := World([None], 0, [])

  function Slot(w: World): Option<Cm>
    requires w.history != []
  {
    w.history[|w.history| - 1]
  }

  predicate Enabled(w: World, a: Action) {
    w.history != [] && match a
    case Others(_) => true
    case Create(s) => OneOf(s.ephemeris)
    case Update(i, op) => i < |w.history| && Valid(op)
    case Delete(i) => i < |w.history|
  }

  /** What a step leaves behind: nothing, or one more state and perhaps a record of a provider write. */
  datatype Effect = Nothing | Next(state: Option<Cm>, record: Option<Record>)

  /** The API server stamps every stored state with a new version, and every new object with a new UID. */
  function Stamp(w: World, cm: Cm, uid: nat): Cm {
    cm.(uid := uid, version := |w.history|)
  }

  function OthersEffect(w: World, change: Change): Effect
    requires w.history != []
  {
    match (change, Slot(w))
    case (Make(cm), None) => Next(Some(Stamp(w, cm, w.nextUid)), None)
    case (Alter(cm), Some(cur)) => Next(Some(Stamp(w, cm, cur.uid)), None)
    case (Remove, Some(_)) => Next(None, None)
    case _ => Nothing
  }

  /** A create succeeds only on a free name. */
  function CreateEffect(w: World, made: Cm): Effect
    requires w.history != []
  {
    if Slot(w).Some? then Nothing
    else Next(Some(Stamp(w, made, w.nextUid)), Some(Created(Stamp(w, made, w.nextUid))))
  }

  /** An update succeeds only if the state that was read is still the current version. */
  function UpdateEffect(w: World, read: Cm, d: Decision): Effect
    requires w.history != []
  {
    match Slot(w)
    case Some(cur) =>
      if d.Write? && cur.version == read.version
      then Next(Some(Stamp(w, d.cm, cur.uid)), Some(Overwrote(cur, Stamp(w, d.cm, cur.uid)))) else Nothing
    case None => Nothing
  }

  /** A delete carries the UID that was read as its precondition. */
  function DeleteEffect(w: World, read: Cm, owner: nat): Effect
    requires w.history != []
  {
    match Slot(w)
    case Some(cur) => if Ours(read, owner) && cur.uid == read.uid then Next(None, Some(Removed(cur, read))) else Nothing
    case None => Nothing
  }

  function EffectOf(c: Context, w: World, a: Action): Effect
    requires Enabled(w, a)
  {
    match a
    case Others(change) => OthersEffect(w, change)
    case Create(s) => CreateEffect(w, Fresh(c, s))
    case Update(i, op) => if w.history[i] == None then Nothing else UpdateEffect(w, w.history[i].value, Decide(c, op, w.history[i].value))
    case Delete(i) => if w.history[i] == None then Nothing else DeleteEffect(w, w.history[i].value, c.owner)
  }

  function After(w: World, e: Effect): World {
    match e
    case Nothing => w
    case Next(state, record) =>
      World(w.history + [state],
            if state.Some? && state.value.uid == w.nextUid then w.nextUid + 1 else w.nextUid,
            if record.Some? then w.records + [record.value] else w.records)
  }

  function Step(c: Context, w: World, a: Action): World
    requires Enabled(w, a)
  {
    After(w, EffectOf(c, w, a))
  }

  predicate Legal(c: Context, w: World, trace: seq<Action>)
    decreases |trace|
  {
    trace == [] || (Enabled(w, trace[0]) && Legal(c, Step(c, w, trace[0]), trace[1..]))
  }

  function Run(c: Context, w: World, trace: seq<Action>): World
    requires Legal(c, w, trace)
    decreases |trace|
  {
    if trace == [] then w else Run(c, Step(c, w, trace[0]), trace[1..])
  }

  // ---- safety of every run -------------------------------------------------------------------------------------

  /** Versions identify states. */
  predicate Versioned(w: World) {
    w.history != [] && forall i | 0 <= i < |w.history| && w.history[i].Some? :: w.history[i].value.version == i && w.history[i].value.uid < w.nextUid
  }

  /** What the owner of a CR may rely on, for one provider write. */
  predicate Legitimate(c: Context, history: seq<Option<Cm>>, r: Record) {
    match r
    case Created(after) => ControlledBy(after, c.owner) && Some(after) in history
    case Overwrote(before, after) =>
      && Ours(before, c.owner) && ControlledBy(after, c.owner) && after.uid == before.uid && after.foreign == before.foreign
      && (before.owners != [] ==> after.owners == before.owners)
      && Some(before) in history && Some(after) in history
    case Removed(before, checked) => Ours(checked, c.owner) && before.uid == checked.uid && Some(checked) in history && Some(before) in history
  }

  ghost predicate Safe(c: Context, w: World) {
    Versioned(w) && forall r | r in w.records :: Legitimate(c, w.history, r)
  }

  lemma WritesKeepOwnership(c: Context, op: Op, cm: Cm)
    requires Valid(op) && Decide(c, op, cm).Write?
    ensures Improves(c.owner, cm, Decide(c, op, cm))
  {
  }

  /** A write leaves the object this CR's and keeps what is not the provider's. */
  predicate Improves(owner: nat, cm: Cm, d: Decision) {
    d.Write? ==> Ours(cm, owner) && ControlledBy(d.cm, owner) && d.cm.foreign == cm.foreign && (cm.owners != [] ==> d.cm.owners == cm.owners)
  }

  /** The new state is well stamped and the record tells the truth about it. */
  predicate Sound(c: Context, w: World, e: Effect) {
    e.Next? ==>
      && (e.state.Some? ==> e.state.value.version == |w.history| && e.state.value.uid <= w.nextUid)
      && (e.record.Some? ==> Legitimate(c, w.history + [e.state], e.record.value))
  }

  lemma CurrentIsThere(w: World, state: Option<Cm>)
    requires w.history != []
    ensures Slot(w) in w.history + [state] && state in w.history + [state]
  {
    assert (w.history + [state])[|w.history| - 1] == Slot(w);
    assert (w.history + [state])[|w.history|] == state;
  }

  lemma UpdateIsSound(c: Context, w: World, i: nat, d: Decision)
    requires Versioned(w) && i < |w.history| && w.history[i].Some? && Improves(c.owner, w.history[i].value, d)
    ensures Sound(c, w, UpdateEffect(w, w.history[i].value, d))
  {
    var e := UpdateEffect(w, w.history[i].value, d);
    if e.Next? {
      assert w.history[|w.history| - 1] == w.history[i];
      CurrentIsThere(w, e.state);
    }
  }

  lemma DeleteIsSound(c: Context, w: World, i: nat)
    requires Versioned(w) && i < |w.history| && w.history[i].Some?
    ensures Sound(c, w, DeleteEffect(w, w.history[i].value, c.owner))
  {
    CurrentIsThere(w, None);
    assert (w.history + [None])[i] == w.history[i];
  }

  lemma CreateIsSound(c: Context, w: World, made: Cm)
    requires Versioned(w) && ControlledBy(made, c.owner)
    ensures Sound(c, w, CreateEffect(w, made))
  {
    CurrentIsThere(w, Some(Stamp(w, made, w.nextUid)));
  }

  lemma OthersAreSound(c: Context, w: World, change: Change)
    requires Versioned(w)
    ensures Sound(c, w, OthersEffect(w, change))
  {
    assert w.history[|w.history| - 1] == Slot(w);
  }

  lemma EffectIsSound(c: Context, w: World, a: Action)
    requires Versioned(w) && Enabled(w, a)
    ensures Sound(c, w, EffectOf(c, w, a))
  {
    match a
    case Others(change) => OthersAreSound(c, w, change);
    case Create(s) => CreateIsSound(c, w, Fresh(c, s));
    case Update(i, op) =>
      if w.history[i].Some? {
        var read := w.history[i].value;
        if Decide(c, op, read).Write? { WritesKeepOwnership(c, op, read); }
        UpdateIsSound(c, w, i, Decide(c, op, read));
      }
    case Delete(i) => if w.history[i].Some? { DeleteIsSound(c, w, i); }
  }

  lemma LegitimateLater(c: Context, history: seq<Option<Cm>>, more: Option<Cm>, r: Record)
    requires Legitimate(c, history, r)
    ensures Legitimate(c, history + [more], r)
  {
    assert forall s | s in history :: s in history + [more];
  }

  lemma SoundEffectsAreSafe(c: Context, w: World, e: Effect)
    requires Safe(c, w) && Sound(c, w, e)
    ensures Safe(c, After(w, e))
  {
    if e.Next? {
      var v := After(w, e);
      forall r | r in v.records ensures Legitimate(c, v.history, r) {
        if r in w.records {
          LegitimateLater(c, w.history, e.state, r);
        }
      }
    }
  }

  /**
   In every interleaving: each update overwrote a state that this CR controlled or could adopt and left
   everything foreign in it alone, each delete removed the very object that passed the check, and each
   object the provider created was owned from its first version on.
   */
  lemma {:induction false} EveryWriteIsLegitimate(c: Context, w: World, trace: seq<Action>)
    requires Safe(c, w) && Legal(c, w, trace)
    ensures Safe(c, Run(c, w, trace))
    decreases |trace|
  {
    if trace != [] {
      EffectIsSound(c, w, trace[0]);
      SoundEffectsAreSafe(c, w, EffectOf(c, w, trace[0]));
      EveryWriteIsLegitimate(c, Step(c, w, trace[0]), trace[1..]);
    }
  }

  lemma EmptyIsSafe(c: Context)
    ensures Safe(c, EMPTY)
  {
  }

  /** An object that was never this CR's in any of its states is never written or deleted by the provider. */
  lemma ForeignObjectsAreUntouched(c: Context, trace: seq<Action>, uid: nat)
    requires Legal(c, EMPTY, trace)
    requires forall i | 0 <= i < |Run(c, EMPTY, trace).history| ::
      var s := Run(c, EMPTY, trace).history[i]; s.Some? && s.value.uid == uid ==> !Ours(s.value, c.owner)
    ensures forall r | r in Run(c, EMPTY, trace).records :: match r
      case Created(after) => after.uid != uid
      case Overwrote(before, after) => before.uid != uid && after.uid != uid
      case Removed(before, checked) => before.uid != uid
  {
    EmptyIsSafe(c);
    EveryWriteIsLegitimate(c, EMPTY, trace);
    var w := Run(c, EMPTY, trace);
    forall cm, i | 0 <= i < |w.history| && w.history[i] == Some(cm) && cm.uid == uid ensures !Ours(cm, c.owner) {
    }
    forall r | r in w.records ensures match r
      case Created(after) => after.uid != uid
      case Overwrote(before, after) => before.uid != uid && after.uid != uid
      case Removed(before, checked) => before.uid != uid
    {
      assert Legitimate(c, w.history, r);
    }
  }

  // ---- deletes -----------------------------------------------------------------------------------------------------

  predicate Holds(w: World, uid: nat)
    requires w.history != []
  {
    Slot(w).Some? && Slot(w).value.uid == uid
  }

  /** The last state another actor put in place of an existing object. */
  function LastAlter(trace: seq<Action>): Option<Cm> {
    if trace == [] then None
    else
      var later := LastAlter(trace[1..]);
      if later == None && trace[0].Others? && trace[0].change.Alter? then Some(trace[0].change.cm) else later
  }

  /** What one step does to an object: gone, as much ours as another actor made it, or as much ours as before. */
  lemma StepOnObject(c: Context, w: World, a: Action, uid: nat)
    requires Versioned(w) && Enabled(w, a) && uid < w.nextUid
    ensures var v := Step(c, w, a);
      && Versioned(v) && uid < v.nextUid && (Holds(v, uid) ==> Holds(w, uid))
      && (Holds(v, uid) ==> (Ours(Slot(v).value, c.owner) <==>
            Ours(if a.Others? && a.change.Alter? then a.change.cm else Slot(w).value, c.owner)))
  {
    EffectIsSound(c, w, a);
    if a.Update? && w.history[a.readAt].Some? && Decide(c, a.op, w.history[a.readAt].value).Write? {
      WritesKeepOwnership(c, a.op, w.history[a.readAt].value);
    }
  }

  lemma {:induction false} GoneForGood(c: Context, w: World, trace: seq<Action>, uid: nat)
    requires Versioned(w) && Legal(c, w, trace) && uid < w.nextUid && !Holds(w, uid)
    ensures Run(c, w, trace).history != [] && !Holds(Run(c, w, trace), uid)
    decreases |trace|
  {
    if trace != [] {
      StepOnObject(c, w, trace[0], uid);
      GoneForGood(c, Step(c, w, trace[0]), trace[1..], uid);
    }
  }

  /**
   Exactly when an object that is still there is still ours: if no other actor has put another state in its place since,
   it is ours if it was, and otherwise it is ours if the last such state is. Nothing the provider does matters.
   */
  lemma {:induction false} StillOursExactly(c: Context, w: World, trace: seq<Action>, uid: nat)
    requires Versioned(w) && Legal(c, w, trace) && uid < w.nextUid && Holds(w, uid)
    ensures var v := Run(c, w, trace); v.history != [] && (Holds(v, uid) ==>
      (Ours(Slot(v).value, c.owner) <==> Ours(if LastAlter(trace).Some? then LastAlter(trace).value else Slot(w).value, c.owner)))
    decreases |trace|
  {
    if trace != [] {
      var v := Step(c, w, trace[0]);
      StepOnObject(c, w, trace[0], uid);
      if Holds(v, uid) {
        StillOursExactly(c, v, trace[1..], uid);
      } else {
        GoneForGood(c, v, trace[1..], uid);
      }
    }
  }

  lemma {:induction false} HistoryGrows(c: Context, w: World, trace: seq<Action>)
    requires Versioned(w) && Legal(c, w, trace)
    ensures w.history <= Run(c, w, trace).history && Versioned(Run(c, w, trace))
    decreases |trace|
  {
    if trace != [] {
      EffectIsSound(c, w, trace[0]);
      HistoryGrows(c, Step(c, w, trace[0]), trace[1..]);
    }
  }

  /** A delete of an object read at `w`, after any run: what it removes is still ours exactly as StillOursExactly says. */
  lemma RemovedIsOursExactly(c: Context, w: World, trace: seq<Action>)
    requires Versioned(w) && Slot(w).Some? && Ours(Slot(w).value, c.owner) && Legal(c, w, trace)
    ensures var v := Run(c, w, trace);
      && Enabled(v, Delete(|w.history| - 1))
      && var x := Step(c, v, Delete(|w.history| - 1));
      (x == v || (x.records == v.records + [Removed(Slot(v).value, Slot(w).value)]
                   && (Ours(Slot(v).value, c.owner) <==> LastAlter(trace) == None || Ours(LastAlter(trace).value, c.owner))))
  {
    HistoryGrows(c, w, trace);
    StillOursExactly(c, w, trace, Slot(w).value.uid);
    var v := Run(c, w, trace);
    assert v.history[|w.history| - 1] == Slot(w);
  }

  /**
   The UID precondition does not see a change of owner: an object that another controller took over in place after the
   provider had read it is deleted all the same.
   */
  lemma TakenOverInPlaceIsDeleted(c: Context, w: World, other: nat)
    requires Versioned(w) && Slot(w).Some? && ControlledBy(Slot(w).value, c.owner) && other != c.owner
    ensures var taken := Slot(w).value.(owners := [Ref(other, true)]);
      var v := Step(c, w, Others(Alter(taken)));
      var x := Step(c, v, Delete(|w.history| - 1));
      && Slot(v).Some? && !Ours(Slot(v).value, c.owner) && ControlledBy(Slot(v).value, other)
      && Slot(x) == None && x.records == w.records + [Removed(Slot(v).value, Slot(w).value)]
  {
    var taken := Slot(w).value.(owners := [Ref(other, true)]);
    var v := Step(c, w, Others(Alter(taken)));
    assert v.history[|w.history| - 1] == Slot(w);
  }

  // ---- nothing to do ---------------------------------------------------------------------------------------------

  /** Rewriting a generated configuration is regenerating it, and rewriting twice is rewriting once. */
  ghost predicate Coherent(c: Context) {
    && (forall s: Spec, e | OneOf(s.ephemeris) && OneOf(e) :: c.rewrite(e, c.generate(s)) == Some(c.generate(s.(ephemeris := e))))
    && (forall e, text | OneOf(e) && c.rewrite(e, text).Some? ::
          var once := c.rewrite(e, text); c.rewrite(e, once.value) == once)
  }

  /** An object that holds exactly what Apply of this spec wants. */
  predicate Settled(c: Context, s: Spec, cm: Cm) {
    ControlledBy(cm, c.owner) && cm.managed && cm.config == Some(c.generate(s)) && cm.koffset == Some(c.koffset(s))
  }

  /** Whatever it found, an Apply that is not refused leaves a settled object behind. */
  lemma ApplySettles(c: Context, s: Spec, cm: Cm)
    requires OneOf(s.ephemeris)
    ensures Settled(c, s, Fresh(c, s))
    ensures match DecideApply(c, s, cm)
      case Write(stored) => Settled(c, s, stored) && !Settled(c, s, cm) && Ours(cm, c.owner)
      case Unchanged => Settled(c, s, cm)
      case NotOwned => !Ours(cm, c.owner)
      case Unusable => false
  {
  }

  /** On a settled object, further Apply and Push of the spec's own ephemeris write nothing. */
  lemma SettledStays(c: Context, s: Spec, cm: Cm)
    requires OneOf(s.ephemeris) && Coherent(c) && Settled(c, s, cm)
    ensures DecideApply(c, s, cm) == Unchanged
    ensures DecidePush(c, s.ephemeris, cm) == Unchanged
  {
    assert s.(ephemeris := s.ephemeris) == s;
    assert c.rewrite(s.ephemeris, c.generate(s)) == Some(c.generate(s.(ephemeris := s.ephemeris)));
  }

  /** The calls that keep a spec applied: its Apply (as a create or an update) and the push of its own ephemeris. */
  predicate Upkeep(s: Spec, a: Action) {
    a == Create(s) || (a.Update? && (a.op == Apply(s) || a.op == Push(s.ephemeris)))
  }

  lemma UpkeepStepChangesNothing(c: Context, s: Spec, w: World, a: Action)
    requires OneOf(s.ephemeris) && Coherent(c) && Versioned(w) && Slot(w).Some? && Settled(c, s, Slot(w).value)
    requires Upkeep(s, a) && Enabled(w, a)
    ensures Step(c, w, a) == w
  {
    if a.Update? && w.history[a.readAt].Some? && a.readAt == |w.history| - 1 {
      SettledStays(c, s, Slot(w).value);
    }
  }

  /** Over a settled object, no sequence of upkeep calls, however stale their reads, writes anything. */
  lemma {:induction false} UpkeepChangesNothing(c: Context, s: Spec, w: World, trace: seq<Action>)
    requires OneOf(s.ephemeris) && Coherent(c) && Versioned(w) && Slot(w).Some? && Settled(c, s, Slot(w).value)
    requires Legal(c, w, trace) && forall i | 0 <= i < |trace| :: Upkeep(s, trace[i])
    ensures Run(c, w, trace) == w
    decreases |trace|
  {
    if trace != [] {
      assert Upkeep(s, trace[0]);
      UpkeepStepChangesNothing(c, s, w, trace[0]);
      UpkeepChangesNothing(c, s, w, trace[1..]);
    }
  }

  /** The one Apply: a create on a free name, an update over the current state otherwise. */
  function FirstApply(s: Spec, w: World): Action
    requires w.history != []
  {
    if Slot(w) == None then Create(s) else Update(|w.history| - 1, Apply(s))
  }

  /** After one Apply on a free name or over an object that is ours, further Apply and Push of the spec write nothing, ever. */
  lemma OneApplyIsEnough(c: Context, s: Spec, w: World, trace: seq<Action>)
    requires OneOf(s.ephemeris) && Coherent(c) && Versioned(w) && (Slot(w).Some? ==> Ours(Slot(w).value, c.owner))
    requires Enabled(w, FirstApply(s, w)) && Legal(c, Step(c, w, FirstApply(s, w)), trace) && forall i | 0 <= i < |trace| :: Upkeep(s, trace[i])
    ensures Run(c, Step(c, w, FirstApply(s, w)), trace) == Step(c, w, FirstApply(s, w))
  {
    var a := FirstApply(s, w);
    var v := Step(c, w, a);
    EffectIsSound(c, w, a);
    if Slot(w).Some? {
      ApplySettles(c, s, Slot(w).value);
    }
    assert Slot(v).Some? && Settled(c, s, Slot(v).value);
    UpkeepChangesNothing(c, s, v, trace);
  }

  /** When a push refuses, cannot work, has nothing to do, or writes: the ephemeris in the object's own text, and nothing else. */
  lemma PushExactly(c: Context, e: Ephemeris, cm: Cm)
    requires OneOf(e)
    ensures match DecidePush(c, e, cm)
      case NotOwned => !ControlledBy(cm, c.owner)
      case Unusable => ControlledBy(cm, c.owner) && (cm.config == None || c.rewrite(e, cm.config.value) == None)
      case Unchanged => ControlledBy(cm, c.owner) && cm.config.Some? && c.rewrite(e, cm.config.value) == cm.config
      case Write(stored) => ControlledBy(cm, c.owner) && cm.config.Some? && stored == cm.(config := c.rewrite(e, cm.config.value)) && stored.config.Some? && stored != cm
  {
  }

  /** A push of another ephemeris leaves exactly the configuration that a spec with that ephemeris would generate. */
  lemma PushIsApplyOfTheNewSpec(c: Context, s: Spec, e: Ephemeris, cm: Cm)
    requires OneOf(s.ephemeris) && OneOf(e) && Coherent(c) && Settled(c, s, cm)
    ensures match DecidePush(c, e, cm)
      case Write(stored) => stored == cm.(config := Some(c.generate(s.(ephemeris := e)))) && stored != cm
      case Unchanged => cm.config == Some(c.generate(s.(ephemeris := e)))
      case _ => false
  {
    assert c.rewrite(e, c.generate(s)) == Some(c.generate(s.(ephemeris := e)));
  }
}

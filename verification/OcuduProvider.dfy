/**
 The provider's calls as they run (pkg/provider/ocudu/provider.go), each a few API requests with any changes by
 other actors in between. Every call is shown to be a run of the ownership protocol.
 */
module OcuduProvider {
  import opened Prelude
  import opened OcuduConfig
  import opened ConfigMapOwnership

  datatype Outcome = Done | Invalid | Refused | Conflict | Failed

  predicate Live(w: World) {
    w.history != []
  }

  lemma {:induction false} RunConcat(c: Context, w: World, a: seq<Action>, b: seq<Action>)
    requires Legal(c, w, a) && Legal(c, Run(c, w, a), b)
    ensures Legal(c, w, a + b) && Run(c, w, a + b) == Run(c, Run(c, w, a), b)
    decreases |a|
  {
    if a == [] {
      assert a + b == b;
    } else {
      assert (a + b)[1..] == a[1..] + b;
      RunConcat(c, Step(c, w, a[0]), a[1..], b);
    }
  }

  lemma RunOne(c: Context, w: World, a: Action)
    requires Enabled(w, a)
    ensures Legal(c, w, [a]) && Run(c, w, [a]) == Step(c, w, a)
  {
    assert [a][1..] == [];
    assert Legal(c, Step(c, w, a), []);
  }

  /** One object name on the API server, and the run that led to its present state. */
  class ApiServer {
    const context: Context
    const start: World
    var world: World
    ghost var trace: seq<Action>

    ghost predicate Valid()
      reads this
    {
      Live(world) && Legal(context, start, trace) && world == Run(context, start, trace)
    }

    ghost method Extend(a: Action)
      requires Legal(context, start, trace) && Enabled(Run(context, start, trace), a)
      modifies `trace
      ensures trace == old(trace) + [a]
      ensures Legal(context, start, trace) && Run(context, start, trace) == Step(context, Run(context, start, old(trace)), a)
    {
      RunOne(context, Run(context, start, trace), a);
      RunConcat(context, start, trace, [a]);
      trace := trace + [a];
    }

    constructor (c: Context, w: World)
      requires Live(w)
      ensures Valid() && context == c && start == w && world == w && trace == []
    {
      context, start, world, trace := c, w, w, [];
    }

    /** Whatever other actors do between two requests. */
    method Interfere(changes: seq<Change>)
      requires Valid()
      modifies this
      ensures Valid() && world.records == old(world.records) && old(world.history) <= world.history
      ensures changes == [] ==> world == old(world)
    {
      for i := 0 to |changes|
        invariant Valid() && world.records == old(world.records) && old(world.history) <= world.history
        invariant i == 0 ==> world == old(world)
      {
        Extend(Others(changes[i]));
        world := After(world, OthersEffect(world, changes[i]));
      }
    }

    method Get() returns (r: Option<Cm>)
      requires Valid()
      ensures r == world.history[|world.history| - 1]
    {
      r := world.history[|world.history| - 1];
    }

    method CreateObject(s: Spec) returns (created: bool)
      requires Valid() && OneOf(s.ephemeris)
      modifies this
      ensures Valid() && old(world.history) <= world.history
      ensures created <==> old(Slot(world)) == None
      ensures created ==> Slot(world) == Some(Stamp(old(world), Fresh(context, s), old(world).nextUid))
      ensures !created ==> world == old(world)
    {
      Extend(Create(s));
      created := Slot(world) == None;
      world := After(world, CreateEffect(world, Fresh(context, s)));
    }

    /** Accepted only while the version that was read is current. */
    method UpdateObject(ghost readAt: nat, ghost op: Op, read: Cm, cm: Cm) returns (accepted: bool)
      requires Valid() && readAt < |world.history| && world.history[readAt] == Some(read)
      requires ConfigMapOwnership.Valid(op) && Decide(context, op, read) == Write(cm)
      modifies this
      ensures Valid() && old(world.history) <= world.history
      ensures accepted <==> old(Slot(world)).Some? && old(Slot(world)).value.version == read.version
      ensures accepted ==> Slot(world).Some? && Slot(world).value == Stamp(old(world), cm, Slot(world).value.uid)
      ensures !accepted ==> world == old(world)
    {
      Extend(Update(readAt, op));
      var cur := Slot(world);
      accepted := cur.Some? && cur.value.version == read.version;
      world := After(world, UpdateEffect(world, read, Write(cm)));
    }

    /** Accepted only while the object that was read is still there. */
    method DeleteObject(ghost readAt: nat, read: Cm) returns (accepted: bool)
      requires Valid() && readAt < |world.history| && world.history[readAt] == Some(read) && Ours(read, context.owner)
      modifies this
      ensures Valid() && old(world.history) <= world.history
      ensures accepted <==> old(Slot(world)).Some? && old(Slot(world)).value.uid == read.uid
      ensures accepted ==> Slot(world) == None
      ensures !accepted ==> world == old(world)
    {
      Extend(Delete(readAt));
      var cur := Slot(world);
      accepted := cur.Some? && cur.value.uid == read.uid;
      world := After(world, DeleteEffect(world, read, context.owner));
    }
  }

  /** Some state of the name since `since` holds exactly what the spec wants. */
  ghost predicate WasSettled(c: Context, s: Spec, w: World, since: nat)
  {
    exists i | since <= i < |w.history| :: w.history[i].Some? && Settled(c, s, w.history[i].value)
  }

  lemma SettledWitness(c: Context, s: Spec, w: World, since: nat, i: nat)
    requires OneOf(s.ephemeris) && since <= i < |w.history| && w.history[i].Some? && Settled(c, s, w.history[i].value)
    ensures WasSettled(c, s, w, since)
  {
  }

  /** Some state of the name since `since` was neither controlled by the CR nor adoptable. */
  ghost predicate SawForeign(c: Context, w: World, since: nat) {
    exists i | since <= i < |w.history| :: w.history[i].Some? && !Ours(w.history[i].value, c.owner)
  }

  /** Some state of the name since `since` was ours and has been replaced. */
  ghost predicate SawOurs(c: Context, w: World, since: nat) {
    exists i | since <= i < |w.history| - 1 :: w.history[i].Some? && Ours(w.history[i].value, c.owner)
  }

  /** The overwrite-or-adopt part of ApplyCellConfig, on the object that was read. */
  method OverwriteOwned(api: ApiServer, s: Spec, ghost readAt: nat, read: Cm, gap: seq<Change>) returns (out: Outcome)
    requires api.Valid() && OneOf(s.ephemeris)
    requires readAt < |api.world.history| && api.world.history[readAt] == Some(read)
    modifies api
    ensures api.Valid() && old(api.world.history) <= api.world.history
    ensures out == Refused <==> !Ours(read, api.context.owner)
    ensures out == Done ==> WasSettled(api.context, s, api.world, readAt)
    ensures out == Conflict ==> Ours(read, api.context.owner) && readAt < |api.world.history| - 1
    ensures out in {Refused, Conflict} ==> api.world.records == old(api.world.records)
    ensures readAt == |old(api.world.history)| - 1 && gap == [] ==> out != Conflict
    ensures out in {Refused, Done, Conflict}
  {
    var cm := read;
    var alreadyOwned := ControlledBy(cm, api.context.owner);
    if !alreadyOwned {
      if !Adoptable(cm) {
        return Refused;
      }
      cm := cm.(owners := [Ref(api.context.owner, true)]);
    }
    var desiredData, desiredKoffset := api.context.generate(s), api.context.koffset(s);
    ApplySettles(api.context, s, read);
    if alreadyOwned && cm.managed && cm.config == Some(desiredData) && cm.koffset == Some(desiredKoffset) {
      SettledWitness(api.context, s, api.world, readAt, readAt);
      return Done;
    }
    cm := cm.(config := Some(desiredData), managed := true, koffset := Some(desiredKoffset));
    assert DecideApply(api.context, s, read) == Write(cm);
    api.Interfere(gap);
    assert api.world.history[readAt] == Some(read);
    var accepted := api.UpdateObject(readAt, Apply(s), read, cm);
    if !accepted {
      return Conflict;
    }
    SettledWitness(api.context, s, api.world, readAt, |api.world.history| - 1);
    return Done;
  }

  lemma SettledSince(c: Context, s: Spec, w: World, since: nat, later: nat)
    requires since <= later && WasSettled(c, s, w, later)
    ensures WasSettled(c, s, w, since)
  {
  }

  /** The create on a name that was free when it was read. */
  method CreateOwned(api: ApiServer, s: Spec, gap: seq<Change>) returns (created: bool)
    requires api.Valid() && OneOf(s.ephemeris) && Slot(api.world) == None
    modifies api
    ensures api.Valid() && old(api.world.history) <= api.world.history
    ensures created ==> WasSettled(api.context, s, api.world, |old(api.world.history)| - 1)
    ensures !created ==> api.world.records == old(api.world.records)
    ensures gap == [] ==> created
  {
    api.Interfere(gap);
    created := api.CreateObject(s);
    if created {
      ApplySettles(api.context, s, Fresh(api.context, s));
      SettledWitness(api.context, s, api.world, |old(api.world.history)| - 1, |api.world.history| - 1);
    }
  }

  /**
   On success the name held exactly the desired object at some moment of the call. It is refused only over a foreign
   object, conflicts only if an object of ours was replaced under it, and fails only if a name that was free was taken and
   freed again; none of these writes. Undisturbed, it succeeds exactly on a free name or an object of ours.
   */
  method ApplyCellConfig(api: ApiServer, ownerNamespace: string, providerNamespace: string, spec: Option<Spec>,
                         gap1: seq<Change>, gap2: seq<Change>, gap3: seq<Change>) returns (out: Outcome)
    requires api.Valid()
    modifies api
    ensures api.Valid() && old(api.world.history) <= api.world.history
    ensures out == Invalid <==> spec == None || providerNamespace == "" || ownerNamespace != providerNamespace || !OneOf(spec.value.ephemeris)
    ensures out == Invalid ==> api.world == old(api.world)
    ensures out == Done ==> WasSettled(api.context, spec.value, api.world, |old(api.world.history)| - 1)
    ensures out == Refused ==> SawForeign(api.context, api.world, |old(api.world.history)| - 1)
    ensures out == Conflict ==> SawOurs(api.context, api.world, |old(api.world.history)| - 1)
    ensures out == Failed ==> old(Slot(api.world)) == None
    ensures out in {Refused, Conflict, Failed} ==> api.world.records == old(api.world.records)
    ensures out != Invalid && gap1 == [] && gap2 == [] && gap3 == [] ==>
      out == if old(Slot(api.world)) == None || Ours(old(Slot(api.world)).value, api.context.owner) then Done else Refused
  {
    if spec == None || providerNamespace == "" || ownerNamespace != providerNamespace {
      return Invalid;
    }
    var s := spec.value;
    if !OneOf(s.ephemeris) {
      return Invalid;
    }
    ghost var start := |api.world.history| - 1;
    var read := api.Get();
    if read == None {
      var created := CreateOwned(api, s, gap1);
      if created {
        return Done;
      }
      api.Interfere(gap2);
      read := api.Get();
      if read == None {
        return Failed;
      }
    }
    ghost var readAt := |api.world.history| - 1;
    out := OverwriteOwned(api, s, readAt, read.value, gap3);
    assert api.world.history[readAt] == read;
    if out == Done {
      SettledSince(api.context, s, api.world, start, readAt);
    }
  }

  /** The object is there, holds a configuration, and that has an ephemeris block. */
  predicate CanPush(c: Context, e: Ephemeris, slot: Option<Cm>) {
    slot.Some? && slot.value.config.Some? && c.rewrite(e, slot.value.config.value).Some?
  }

  /** The object is controlled by the CR and its configuration already has this ephemeris. */
  predicate Carries(c: Context, e: Ephemeris, slot: Option<Cm>) {
    slot.Some? && ControlledBy(slot.value, c.owner) && slot.value.config.Some? && c.rewrite(e, slot.value.config.value) == slot.value.config
  }

  method PushEphemerisUpdate(api: ApiServer, namespace: string, update: Ephemeris, gap: seq<Change>) returns (out: Outcome)
    requires api.Valid()
    modifies api
    ensures api.Valid() && old(api.world.history) <= api.world.history
    ensures out == Invalid <==> namespace == "" || !OneOf(update)
    ensures out == Refused <==> out != Invalid && old(Slot(api.world)).Some? && !ControlledBy(old(Slot(api.world)).value, api.context.owner)
    ensures out == Failed <==> out != Invalid && out != Refused && !CanPush(api.context, update, old(Slot(api.world)))
    ensures out in {Invalid, Failed, Refused} ==> api.world == old(api.world)
    ensures out == Conflict ==> |api.world.history| > |old(api.world.history)| && api.world.records == old(api.world.records)
    ensures out == Done && Coherent(api.context) ==>
      exists i | |old(api.world.history)| - 1 <= i < |api.world.history| :: Carries(api.context, update, api.world.history[i])
    ensures gap == [] ==> out != Conflict
  {
    if namespace == "" || (update.ecef == None && update.orbital == None) || (update.ecef != None && update.orbital != None) {
      return Invalid;
    }
    ghost var readAt := |api.world.history| - 1;
    var read := api.Get();
    if read == None {
      return Failed;
    }
    var cm := read.value;
    if !ControlledBy(cm, api.context.owner) {
      return Refused;
    }
    if cm.config == None {
      return Failed;
    }
    var updated := api.context.rewrite(update, cm.config.value);
    if updated == None {
      return Failed;
    }
    if updated == cm.config {
      assert Carries(api.context, update, api.world.history[readAt]);
      return Done;
    }
    cm := cm.(config := updated);
    assert DecidePush(api.context, update, read.value) == Write(cm);
    api.Interfere(gap);
    var accepted := api.UpdateObject(readAt, Push(update), read.value, cm);
    if !accepted {
      return Conflict;
    }
    if Coherent(api.context) {
      assert api.context.rewrite(update, updated.value) == updated;
      assert Carries(api.context, update, api.world.history[|api.world.history| - 1]);
    }
    return Done;
  }

  /** Deletes the object only if it was ours when read, and only while it is that object. */
  method Cleanup(api: ApiServer, gap: seq<Change>) returns (out: Outcome)
    requires api.Valid()
    modifies api
    ensures api.Valid() && old(api.world.history) <= api.world.history
    ensures old(Slot(api.world)) == None || !Ours(old(Slot(api.world)).value, api.context.owner) ==> out == Done && api.world == old(api.world)
    ensures out == Done && old(Slot(api.world)).Some? && Ours(old(Slot(api.world)).value, api.context.owner) ==> Slot(api.world) == None
    ensures out in {Done, Conflict}
    ensures out == Conflict ==> |api.world.history| > |old(api.world.history)| && api.world.records == old(api.world.records)
    ensures gap == [] ==> out == Done
  {
    ghost var readAt := |api.world.history| - 1;
    var read := api.Get();
    if read == None {
      return Done;
    }
    if !ControlledBy(read.value, api.context.owner) && !Adoptable(read.value) {
      return Done;
    }
    api.Interfere(gap);
    if api.world.history[|api.world.history| - 1] == None {
      return Done;
    }
    var accepted := api.DeleteObject(readAt, read.value);
    return if accepted then Done else Conflict;
  }
}

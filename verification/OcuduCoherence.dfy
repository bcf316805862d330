/** The OCUDU configuration supplies what the ownership protocol asks of its two computations. */
module OcuduCoherence {
  import opened Prelude
  import opened Text
  import opened OcuduConfig
  import opened EphemerisRewrite
  import opened ConfigMapOwnership
  import ConfigReader

  function Rewrite(f: Format, e: Ephemeris, content: string): Option<string> {
    if OneOf(e) && HasBlock(Split(content)) then Some(Replace(RendererOf(f, e), content)) else None
  }

  function Generate(f: Format, s: Spec): string {
    if OneOf(s.ephemeris) then Generated(f, s) else ""
  }

  /** The provider for the CR `owner`. */
  function Provider(f: Format, owner: nat): Context {
    Context(owner, (s: Spec) => Generate(f, s), (s: Spec) => f.itoa(s.koffset), (e, content) => Rewrite(f, e, content))
  }

  lemma RewriteGenerated(f: Format, s: Spec, e: Ephemeris)
    requires OneLine(f) && OneOf(s.ephemeris) && OneOf(e)
    ensures Rewrite(f, e, Generate(f, s)) == Some(Generate(f, s.(ephemeris := e)))
  {
    RewriteIsRegenerate(f, s, e);
  }

  lemma RewriteTwice(f: Format, e: Ephemeris, content: string)
    requires OneLine(f) && OneOf(e) && Rewrite(f, e, content).Some?
    ensures Rewrite(f, e, Rewrite(f, e, content).value) == Rewrite(f, e, content)
  {
    LastReplacementWins(f, content, e, e);
  }

  /** So after one Apply, further Apply and Push of the spec's own ephemeris write nothing (SettledStays). */
  lemma ProviderIsCoherent(f: Format, owner: nat)
    requires OneLine(f)
    ensures Coherent(Provider(f, owner))
  {
    var c := Provider(f, owner);
    forall s: Spec, e | OneOf(s.ephemeris) && OneOf(e) ensures c.rewrite(e, c.generate(s)) == Some(c.generate(s.(ephemeris := e))) {
      RewriteGenerated(f, s, e);
    }
    forall e, text | OneOf(e) && c.rewrite(e, text).Some? ensures c.rewrite(e, c.rewrite(e, text).value) == c.rewrite(e, text) {
      RewriteTwice(f, e, text);
    }
  }

  /** With the real renderers: one Apply, and then neither Apply nor Push of the spec's own ephemeris writes anything in any run. */
  lemma ProviderIsQuiet(f: Format, owner: nat, s: Spec, w: World, trace: seq<Action>)
    requires OneLine(f) && OneOf(s.ephemeris) && Versioned(w) && (Slot(w).Some? ==> Ours(Slot(w).value, owner))
    requires Enabled(w, FirstApply(s, w)) && Legal(Provider(f, owner), Step(Provider(f, owner), w, FirstApply(s, w)), trace)
    requires forall i | 0 <= i < |trace| :: Upkeep(s, trace[i])
    ensures Run(Provider(f, owner), Step(Provider(f, owner), w, FirstApply(s, w)), trace) == Step(Provider(f, owner), w, FirstApply(s, w))
  {
    ProviderIsCoherent(f, owner);
    OneApplyIsEnough(Provider(f, owner), s, w, trace);
  }

  /** An applied object says what its spec says: every field in the configuration, and the koffset in the annotation. */
  lemma AppliedShowsTheSpec(f: Format, owner: nat, s: Spec, cm: Cm)
    requires OneLine(f) && OneOf(s.ephemeris) && Settled(Provider(f, owner), s, cm)
    ensures ControlledBy(cm, owner) && cm.config.Some? && ConfigReader.Entries(cm.config.value) == ConfigReader.Shown(f, s)
    ensures cm.koffset == Some(f.itoa(s.koffset))
  {
    ConfigReader.ConfigShowsTheSpec(f, s);
  }
}

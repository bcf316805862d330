/** Rewriting the ephemeris block of a configuration in place (replaceEphemeris in pkg/provider/ocudu/provider.go). */
module EphemerisRewrite {
  import opened Prelude
  import opened Text
  import opened OcuduConfig

  predicate IsKey(line: string) {
    HasPrefix(TrimSpace(line), "ephemeris_info_ecef:") || HasPrefix(TrimSpace(line), "ephemeris_orbital:")
  }

  /** A line that belongs to the body of a block whose key stands at column `indent`. */
  predicate InBody(line: string, indent: nat) {
    Blank(line) || LeadingSpaces(line) > indent
  }

  /** Which lines are keys; everything about the search is the same for any answer. */
  type KeyTest = string -> bool

  /** A renderer of a block at a given column. */
  type Renderer = nat -> seq<string>

  /** The first key line at or after `i`, or the number of lines. */
  function KeyIndex(isKey: KeyTest, lines: seq<string>, i: nat): (k: nat)
    requires i <= |lines|
    ensures i <= k <= |lines|
    decreases |lines| - i
  {
    if i == |lines| || isKey(lines[i]) then i else KeyIndex(isKey, lines, i + 1)
  }

  lemma {:induction false} KeyIndexIs(isKey: KeyTest, lines: seq<string>, i: nat, k: nat)
    requires i <= k <= |lines| && (forall x | i <= x < k :: !isKey(lines[x])) && (k < |lines| ==> isKey(lines[k]))
    ensures KeyIndex(isKey, lines, i) == k
    decreases k - i
  {
    if i < k {
      KeyIndexIs(isKey, lines, i + 1, k);
    }
  }

  /** Nothing before the first key line is a key line. */
  lemma {:induction false} KeyIndexFacts(isKey: KeyTest, lines: seq<string>, i: nat)
    requires i <= |lines|
    ensures var k := KeyIndex(isKey, lines, i); (forall x | i <= x < k :: !isKey(lines[x])) && (k < |lines| ==> isKey(lines[k]))
    decreases |lines| - i
  {
    if i < |lines| && !isKey(lines[i]) {
      KeyIndexFacts(isKey, lines, i + 1);
    }
  }

  /** The first line at or after `i` that is outside the body. */
  function BodyEnd(lines: seq<string>, i: nat, indent: nat): (k: nat)
    requires i <= |lines|
    ensures i <= k <= |lines|
    decreases |lines| - i
  {
    if i == |lines| || !InBody(lines[i], indent) then i else BodyEnd(lines, i + 1, indent)
  }

  lemma {:induction false} BodyEndIs(lines: seq<string>, i: nat, indent: nat, k: nat)
    requires i <= k <= |lines| && (forall x | i <= x < k :: InBody(lines[x], indent)) && (k < |lines| ==> !InBody(lines[k], indent))
    ensures BodyEnd(lines, i, indent) == k
    decreases k - i
  {
    if i < k {
      BodyEndIs(lines, i + 1, indent, k);
    }
  }

  lemma {:induction false} BodyEndFacts(lines: seq<string>, i: nat, indent: nat)
    requires i <= |lines|
    ensures var k := BodyEnd(lines, i, indent); k < |lines| ==> !InBody(lines[k], indent)
    decreases |lines| - i
  {
    if i < |lines| && InBody(lines[i], indent) {
      BodyEndFacts(lines, i + 1, indent);
    }
  }

  predicate HasKey(isKey: KeyTest, lines: seq<string>) {
    KeyIndex(isKey, lines, 0) < |lines|
  }

  /** All lines outside the first block, in place, around a fresh block at the old column. */
  function ReplaceFirst(isKey: KeyTest, render: Renderer, lines: seq<string>): seq<string> {
    var k := KeyIndex(isKey, lines, 0);
    if k == |lines| then lines
    else
      var indent := LeadingSpaces(lines[k]);
      lines[..k] + render(indent) + lines[BodyEnd(lines, k + 1, indent)..]
  }

  /** The inner loop: skip blank and deeper lines. */
  method SkipBody(lines: seq<string>, start: nat, indent: nat) returns (i: nat)
    requires start <= |lines|
    ensures i == BodyEnd(lines, start, indent)
  {
    i := start;
    while i < |lines| && InBody(lines[i], indent)
      invariant start <= i <= |lines| && BodyEnd(lines, i, indent) == BodyEnd(lines, start, indent)
    {
      i := i + 1;
    }
  }

  /** Copying one more line of the tail. */
  lemma CopyLine(result: seq<string>, lines: seq<string>, i: nat)
    requires i < |lines|
    ensures result + [lines[i]] + lines[i + 1..] == result + lines[i..]
  {
  }

  /** The outer loop, on lines. */
  method ReplaceBlock(lines: seq<string>, isKey: KeyTest, render: Renderer) returns (result: seq<string>, found: bool)
    ensures result == ReplaceFirst(isKey, render, lines)
    ensures found <==> HasKey(isKey, lines)
  {
    result, found := [], false;
    var i := 0;
    while i < |lines|
      invariant 0 <= i <= |lines|
      invariant !found ==> KeyIndex(isKey, lines, i) == KeyIndex(isKey, lines, 0) && result == lines[..i]
      invariant found ==> HasKey(isKey, lines) && result + lines[i..] == ReplaceFirst(isKey, render, lines)
    {
      if !found && isKey(lines[i]) {
        found := true;
        var indent := LeadingSpaces(lines[i]);
        result := result + render(indent);
        i := SkipBody(lines, i + 1, indent);
      } else {
        CopyLine(result, lines, i);
        result := result + [lines[i]];
        i := i + 1;
      }
    }
    assert lines[|lines|..] == [] && result + [] == result && lines[..|lines|] == lines;
  }

  predicate HasBlock(lines: seq<string>) {
    HasKey(IsKey, lines)
  }

  function ReplaceLines(render: Renderer, lines: seq<string>): seq<string> {
    ReplaceFirst(IsKey, render, lines)
  }

  function Replace(render: Renderer, content: string): string {
    Join(ReplaceLines(render, Split(content)))
  }

  // ---- the renderer ----------------------------------------------------------------------------------------

  /** renderEphemerisBlock: straight from the codepoints, at any column; orbital elements win when both are set. */
  function Block(f: Format, e: Ephemeris, indent: nat): (r: seq<Line>)
    requires e.ecef.Some? || e.orbital.Some?
    ensures |r| == 7
  {
    match e.orbital
    case Some(o) =>
      [Line(indent, "ephemeris_orbital:"),
       Field(indent + 2, "semi_major_axis", f.itoa(o.semiMajorAxis)),
       Field(indent + 2, "eccentricity", f.flt(Scaled(o.eccentricity, ECCENTRICITY_SCALE))),
       Field(indent + 2, "inclination", f.flt(Scaled(o.inclination, f.radians))),
       Field(indent + 2, "longitude", f.flt(Scaled(o.rightAscension, f.radians))),
       Field(indent + 2, "periapsis", f.flt(Scaled(o.argOfPeriapsis, f.radians))),
       Field(indent + 2, "mean_anomaly", f.flt(Scaled(o.meanAnomaly, f.radians)))]
    case None =>
      var c := e.ecef.value;
      [Line(indent, "ephemeris_info_ecef:"),
       Field(indent + 2, "pos_x", f.flt(Scaled(c.posX, POSITION_STEP))),
       Field(indent + 2, "pos_y", f.flt(Scaled(c.posY, POSITION_STEP))),
       Field(indent + 2, "pos_z", f.flt(Scaled(c.posZ, POSITION_STEP))),
       Field(indent + 2, "vel_x", f.flt(Scaled(c.velX, VELOCITY_STEP))),
       Field(indent + 2, "vel_y", f.flt(Scaled(c.velY, VELOCITY_STEP))),
       Field(indent + 2, "vel_z", f.flt(Scaled(c.velZ, VELOCITY_STEP)))]
  }

  /** The renderer PushEphemerisUpdate hands to the rewrite. */
  function RendererOf(f: Format, e: Ephemeris): Renderer
    requires e.ecef.Some? || e.orbital.Some?
  {
    (n: nat) => ShowAll(Block(f, e, n))
  }

  method ReplaceEphemeris(f: Format, content: string, update: Ephemeris) returns (r: string, found: bool)
    requires update.ecef.Some? || update.orbital.Some?
    ensures r == Replace(RendererOf(f, update), content)
    ensures found <==> HasBlock(Split(content))
    ensures !found ==> r == content
  {
    var result, replaced := ReplaceBlock(Split(content), IsKey, RendererOf(f, update));
    JoinSplit(content);
    return Join(result), replaced;
  }

  // ---- what a line looks like to the rewrite ------------------------------------------------------------------

  /** The line shows something, starting at its column. */
  predicate Solid(l: Line) {
    l.text != [] && !IsSpace(l.text[0])
  }

  lemma SolidLine(l: Line, indent: nat)
    requires Solid(l)
    ensures LeadingSpaces(Show(l)) == l.column && (InBody(Show(l), indent) <==> l.column > indent)
    ensures TrimSpace(Show(l)) == TrimRight(l.text)
  {
    Indented(l.column, l.text);
  }

  lemma NotAKey(l: Line)
    requires l == BLANK || (Solid(l) && l.text[0] != 'e')
    ensures !IsKey(Show(l))
  {
    if l == BLANK {
      assert Show(l) == [] && TrimSpace([]) == [];
    } else {
      SolidLine(l, 0);
    }
  }

  lemma KeyLine(l: Line)
    requires l.text == "ephemeris_info_ecef:" || l.text == "ephemeris_orbital:"
    ensures IsKey(Show(l)) && LeadingSpaces(Show(l)) == l.column
  {
    SolidLine(l, 0);
    assert l.text[|l.text| - 1] == ':';
    HasPrefixExactly(l.text, l.text);
  }

  /** A block as the rewrite expects it: a key line and a deeper body. */
  predicate WellShaped(block: seq<string>, indent: nat) {
    block != [] && IsKey(block[0]) && LeadingSpaces(block[0]) == indent && forall x | 0 < x < |block| :: InBody(block[x], indent)
  }

  predicate StartsOutside(lines: seq<string>, indent: nat) {
    lines == [] || !InBody(lines[0], indent)
  }

  /** The same, of lines with columns. */
  predicate BlockShape(block: seq<Line>, indent: nat) {
    && block != [] && block[0].column == indent
    && (block[0].text == "ephemeris_info_ecef:" || block[0].text == "ephemeris_orbital:")
    && forall x | 0 < x < |block| :: Solid(block[x]) && block[x].column > indent
  }

  lemma ShapeShown(block: seq<Line>, indent: nat)
    requires BlockShape(block, indent)
    ensures WellShaped(ShowAll(block), indent)
  {
    KeyLine(block[0]);
    forall x | 0 < x < |block| ensures InBody(ShowAll(block)[x], indent) {
      SolidLine(block[x], indent);
    }
  }

  lemma BlockHasShape(f: Format, e: Ephemeris, indent: nat)
    requires e.ecef.Some? || e.orbital.Some?
    ensures BlockShape(Block(f, e, indent), indent) && |Block(f, e, indent)| == 7
    ensures Block(f, e, indent)[0] == Line(indent, if e.orbital.Some? then "ephemeris_orbital:" else "ephemeris_info_ecef:")
    ensures forall x | 0 < x < 7 :: Block(f, e, indent)[x].column == indent + 2
  {
  }

  lemma RendererIsWellShaped(f: Format, e: Ephemeris, indent: nat)
    requires e.ecef.Some? || e.orbital.Some?
    ensures WellShaped(RendererOf(f, e)(indent), indent)
  {
    BlockHasShape(f, e, indent);
    ShapeShown(Block(f, e, indent), indent);
  }

  /** The rewrite finds a block wherever it stands and touches nothing else. */
  lemma FirstBlockReplaced(isKey: KeyTest, render: Renderer, before: seq<string>, block: seq<string>, after: seq<string>, indent: nat)
    requires forall x | 0 <= x < |before| :: !isKey(before[x])
    requires block != [] && isKey(block[0]) && LeadingSpaces(block[0]) == indent && forall x | 0 < x < |block| :: InBody(block[x], indent)
    requires StartsOutside(after, indent)
    ensures HasKey(isKey, before + block + after)
    ensures ReplaceFirst(isKey, render, before + block + after) == before + render(indent) + after
  {
    var lines := before + block + after;
    var k, end := |before|, |before| + |block|;
    forall x | 0 <= x < k ensures !isKey(lines[x]) { assert lines[x] == before[x]; }
    assert lines[k] == block[0];
    KeyIndexIs(isKey, lines, 0, k);
    forall x | k < x < end ensures InBody(lines[x], indent) { assert lines[x] == block[x - k]; }
    assert end < |lines| ==> lines[end] == after[0];
    BodyEndIs(lines, k + 1, indent, end);
    assert lines[..k] == before && lines[end..] == after;
  }

  lemma ReplaceAround(render: Renderer, before: seq<string>, block: seq<string>, after: seq<string>, indent: nat)
    requires forall x | 0 <= x < |before| :: !IsKey(before[x])
    requires WellShaped(block, indent) && StartsOutside(after, indent)
    ensures HasBlock(before + block + after)
    ensures ReplaceLines(render, before + block + after) == before + render(indent) + after
  {
    FirstBlockReplaced(IsKey, render, before, block, after, indent);
  }

  // ---- arbitrary text: the last replacement wins -----------------------------------------------------------------

  predicate Tidy(lines: seq<Line>) {
    forall i | 0 <= i < |lines| :: Clean(lines[i].text)
  }

  lemma TidyShown(lines: seq<Line>)
    requires Tidy(lines)
    ensures AllClean(ShowAll(lines))
  {
  }

  lemma Rendered(f: Format, x: real, n: int, s: string)
    requires OneLine(f)
    ensures Clean(f.flt(x)) && Clean(f.itoa(n)) && Clean(f.quote(s))
  {
  }

  lemma TidyField(column: nat, key: string, value: string)
    requires Clean(key) && Clean(value)
    ensures Clean(Field(column, key, value).text) && Clean(Open(column, key).text)
  {
  }

  lemma TidyFlt(f: Format, column: nat, key: string, x: real)
    requires OneLine(f) && Clean(key)
    ensures Clean(Field(column, key, f.flt(x)).text)
  {
    Rendered(f, x, 0, "");
    TidyField(column, key, f.flt(x));
  }

  lemma TidyInt(f: Format, column: nat, key: string, n: int)
    requires OneLine(f) && Clean(key)
    ensures Clean(Field(column, key, f.itoa(n)).text)
  {
    Rendered(f, 0.0, n, "");
    TidyField(column, key, f.itoa(n));
  }

  lemma OrbitalBlockIsTidy(f: Format, e: Ephemeris, indent: nat)
    requires OneLine(f) && e.orbital.Some?
    ensures Tidy(Block(f, e, indent))
  {
    var o := e.orbital.value;
    TidyInt(f, indent + 2, "semi_major_axis", o.semiMajorAxis);
    TidyFlt(f, indent + 2, "eccentricity", Scaled(o.eccentricity, ECCENTRICITY_SCALE));
    TidyFlt(f, indent + 2, "inclination", Scaled(o.inclination, f.radians));
    TidyFlt(f, indent + 2, "longitude", Scaled(o.rightAscension, f.radians));
    TidyFlt(f, indent + 2, "periapsis", Scaled(o.argOfPeriapsis, f.radians));
    TidyFlt(f, indent + 2, "mean_anomaly", Scaled(o.meanAnomaly, f.radians));
  }

  lemma EcefBlockIsTidy(f: Format, e: Ephemeris, indent: nat)
    requires OneLine(f) && e.orbital.None? && e.ecef.Some?
    ensures Tidy(Block(f, e, indent))
  {
    var c := e.ecef.value;
    TidyFlt(f, indent + 2, "pos_x", Scaled(c.posX, POSITION_STEP));
    TidyFlt(f, indent + 2, "pos_y", Scaled(c.posY, POSITION_STEP));
    TidyFlt(f, indent + 2, "pos_z", Scaled(c.posZ, POSITION_STEP));
    TidyFlt(f, indent + 2, "vel_x", Scaled(c.velX, VELOCITY_STEP));
    TidyFlt(f, indent + 2, "vel_y", Scaled(c.velY, VELOCITY_STEP));
    TidyFlt(f, indent + 2, "vel_z", Scaled(c.velZ, VELOCITY_STEP));
  }

  lemma BlockIsTidy(f: Format, e: Ephemeris, indent: nat)
    requires OneLine(f) && (e.ecef.Some? || e.orbital.Some?)
    ensures Tidy(Block(f, e, indent))
  {
    if e.orbital.Some? {
      OrbitalBlockIsTidy(f, e, indent);
    } else {
      EcefBlockIsTidy(f, e, indent);
    }
  }

  lemma ReplaceLinesTwice(first: Renderer, second: Renderer, lines: seq<string>)
    requires forall n :: WellShaped(first(n), n)
    ensures ReplaceLines(second, ReplaceLines(first, lines)) == ReplaceLines(second, lines)
    ensures HasBlock(ReplaceLines(first, lines)) == HasBlock(lines)
  {
    var k := KeyIndex(IsKey, lines, 0);
    if k < |lines| {
      var indent := LeadingSpaces(lines[k]);
      assert WellShaped(first(indent), indent);
      KeyIndexFacts(IsKey, lines, 0);
      BodyEndFacts(lines, k + 1, indent);
      ReplaceAround(second, lines[..k], first(indent), lines[BodyEnd(lines, k + 1, indent)..], indent);
    }
  }

  lemma ReplacedIsClean(render: Renderer, lines: seq<string>)
    requires (forall n :: WellShaped(render(n), n) && AllClean(render(n))) && AllClean(lines) && lines != []
    ensures AllClean(ReplaceLines(render, lines)) && ReplaceLines(render, lines) != []
  {
    var k := KeyIndex(IsKey, lines, 0);
    if k < |lines| {
      var indent := LeadingSpaces(lines[k]);
      assert WellShaped(render(indent), indent) && AllClean(render(indent));
    }
  }

  lemma LastRendererWins(first: Renderer, second: Renderer, content: string)
    requires forall n :: WellShaped(first(n), n) && AllClean(first(n))
    ensures Replace(second, Replace(first, content)) == Replace(second, content)
    ensures HasBlock(Split(Replace(first, content))) == HasBlock(Split(content))
  {
    var lines := Split(content);
    SplitClean(content);
    ReplacedIsClean(first, lines);
    SplitJoin(ReplaceLines(first, lines));
    ReplaceLinesTwice(first, second, lines);
  }

  /** On any text, replacing twice is replacing once with the second value; so replacing is idempotent. */
  lemma LastReplacementWins(f: Format, content: string, first: Ephemeris, second: Ephemeris)
    requires OneLine(f)
    requires (first.ecef.Some? || first.orbital.Some?) && (second.ecef.Some? || second.orbital.Some?)
    ensures Replace(RendererOf(f, second), Replace(RendererOf(f, first), content)) == Replace(RendererOf(f, second), content)
    ensures HasBlock(Split(Replace(RendererOf(f, first), content))) == HasBlock(Split(content))
  {
    var render := RendererOf(f, first);
    forall n ensures WellShaped(render(n), n) && AllClean(render(n)) {
      RendererIsWellShaped(f, first, n);
      BlockIsTidy(f, first, n);
      TidyShown(Block(f, first, n));
    }
    LastRendererWins(render, RendererOf(f, second), content);
  }

  // ---- generated text: rewriting is regenerating ------------------------------------------------------------------

  predicate NoKeys(lines: seq<Line>) {
    forall i | 0 <= i < |lines| :: lines[i] == BLANK || (Solid(lines[i]) && lines[i].text[0] != 'e')
  }

  lemma BannerHasNoKey(f: Format, payloadType: string)
    ensures NoKeys(Banner(f, payloadType))
  {
  }

  lemma HeadHasNoKey(f: Format, d: Data)
    ensures NoKeys(Head(f, d))
  {
    BannerHasNoKey(f, d.payloadType);
    assert NoKeys(TimingLines(f, d));
    assert NoKeys(DriftLines(f, d.taDrift));
  }

  /** Empty, or starting at column 4 or less. */
  predicate Sibling(lines: seq<Line>) {
    lines == [] || (Solid(lines[0]) && lines[0].column <= 4)
  }

  lemma SiblingConcat(a: seq<Line>, b: seq<Line>)
    requires Sibling(a) && Sibling(b)
    ensures Sibling(a + b)
  {
  }

  lemma LinksAreSiblings(f: Format, d: Data)
    ensures Sibling(EpochLines(f, d.epochTime)) && Sibling(FeederLines(f, d.feeder)) && Sibling(GatewayLines(f, d.gateway))
    ensures Sibling(NeighbourBlock(f, d.neighbours))
  {
  }

  lemma OthersAreSiblings(f: Format, d: Data)
    ensures Sibling(PointLines(f, "reference_location", d.reference)) && Sibling(PointLines(f, "moving_ref_location", d.moving))
    ensures Sibling(DistanceLines(f, d.distance)) && Sibling(PolarizationLines(f, d.polarization))
    ensures Sibling(ReportLines(f, d.taReport)) && Sibling(SyncLines(f, d.ulSync))
  {
  }

  lemma LinksStartAsSiblings(f: Format, d: Data)
    ensures Sibling(LinkLines(f, d))
  {
    LinksAreSiblings(f, d);
    var a, b, c, e := EpochLines(f, d.epochTime), FeederLines(f, d.feeder), GatewayLines(f, d.gateway), NeighbourBlock(f, d.neighbours);
    SiblingConcat(a, b);
    SiblingConcat(a + b, c);
    SiblingConcat(a + b + c, e);
  }

  lemma OthersStartAsSiblings(f: Format, d: Data)
    ensures Sibling(OtherLines(f, d))
  {
    OthersAreSiblings(f, d);
    var a, b, c := PointLines(f, "reference_location", d.reference), DistanceLines(f, d.distance), PointLines(f, "moving_ref_location", d.moving);
    var g, h, k := PolarizationLines(f, d.polarization), ReportLines(f, d.taReport), SyncLines(f, d.ulSync);
    SiblingConcat(a, b);
    SiblingConcat(a + b, c);
    SiblingConcat(a + b + c, g);
    SiblingConcat(a + b + c + g, h);
    SiblingConcat(a + b + c + g + h, k);
  }

  lemma FootIsSibling(f: Format, d: Data)
    ensures Sibling(Foot(f, d))
  {
    assert Foot(f, d)[0] == Open(2, "sib");
  }

  lemma TailIsSibling(f: Format, d: Data)
    ensures Sibling(Optionals(f, d) + Foot(f, d))
  {
    LinksStartAsSiblings(f, d);
    OthersStartAsSiblings(f, d);
    SiblingConcat(LinkLines(f, d), OtherLines(f, d));
    FootIsSibling(f, d);
    SiblingConcat(Optionals(f, d), Foot(f, d));
  }

  lemma BothRenderersAgree(f: Format, e: Ephemeris)
    requires OneOf(e)
    ensures EphemerisLines(f, PhysicalOf(f, e)) == Block(f, e, 4)
  {
    assert "ephemeris_orbital" + ":" == "ephemeris_orbital:";
    assert "ephemeris_info_ecef" + ":" == "ephemeris_info_ecef:";
  }

  lemma ShowAllConcat(a: seq<Line>, b: seq<Line>)
    ensures ShowAll(a + b) == ShowAll(a) + ShowAll(b)
  {
  }

  /** The rewrite of shown lines, with the block known to stand at column 4. */
  lemma RewriteShown(render: Renderer, head: seq<Line>, block: seq<Line>, tail: seq<Line>)
    requires NoKeys(head) && BlockShape(block, 4) && Sibling(tail)
    ensures HasBlock(ShowAll(head + block + tail))
    ensures ReplaceLines(render, ShowAll(head + block + tail)) == ShowAll(head) + render(4) + ShowAll(tail)
  {
    ShowAllConcat(head + block, tail);
    ShowAllConcat(head, block);
    forall x | 0 <= x < |head| ensures !IsKey(ShowAll(head)[x]) { NotAKey(head[x]); }
    ShapeShown(block, 4);
    if tail != [] {
      SolidLine(tail[0], 4);
    }
    ReplaceAround(render, ShowAll(head), ShowAll(block), ShowAll(tail), 4);
  }

  /** The lines of a configuration around its block, whatever the ephemeris in it. */
  lemma LinesAround(f: Format, s: Spec, e: Ephemeris)
    requires OneOf(s.ephemeris) && OneOf(e)
    ensures var d := DataOf(f, s);
      Lines(f, DataOf(f, s.(ephemeris := e))) == Head(f, d) + Block(f, e, 4) + (Optionals(f, d) + Foot(f, d))
  {
    BothRenderersAgree(f, e);
    assert DataOf(f, s.(ephemeris := e)) == DataOf(f, s).(ephemeris := PhysicalOf(f, e));
  }

  lemma ShownAround(head: seq<Line>, block: seq<Line>, tail: seq<Line>)
    ensures ShowAll(head + block + tail) == ShowAll(head) + ShowAll(block) + ShowAll(tail)
  {
    ShowAllConcat(head + block, tail);
    ShowAllConcat(head, block);
  }

  lemma RewriteLinesIsRegenerate(f: Format, s: Spec, e: Ephemeris)
    requires OneOf(s.ephemeris) && OneOf(e)
    ensures HasBlock(ShowAll(Lines(f, DataOf(f, s))))
    ensures ReplaceLines(RendererOf(f, e), ShowAll(Lines(f, DataOf(f, s)))) == ShowAll(Lines(f, DataOf(f, s.(ephemeris := e))))
  {
    var d := DataOf(f, s);
    var head, tail := Head(f, d), Optionals(f, d) + Foot(f, d);
    HeadHasNoKey(f, d);
    TailIsSibling(f, d);
    BlockHasShape(f, s.ephemeris, 4);
    RewriteShown(RendererOf(f, e), head, Block(f, s.ephemeris, 4), tail);
    assert s.(ephemeris := s.ephemeris) == s;
    LinesAround(f, s, s.ephemeris);
    LinesAround(f, s, e);
    ShownAround(head, Block(f, e, 4), tail);
  }

  lemma TidyComment(f: Format, column: nat, k: nat)
    requires OneLine(f)
    ensures Clean(f.remark(k)) && Clean(Comment(column, f.remark(k)).text)
  {
  }

  lemma TidyConcat(a: seq<Line>, b: seq<Line>)
    requires Tidy(a) && Tidy(b)
    ensures Tidy(a + b)
  {
  }

  lemma BannerIsTidy(f: Format, payloadType: string)
    requires OneLine(f) && Clean(payloadType)
    ensures Tidy(Banner(f, payloadType))
  {
    TidyComment(f, 0, 0);
    TidyComment(f, 0, 1);
  }

  lemma TimingIsTidy(f: Format, d: Data)
    requires OneLine(f)
    ensures Tidy(TimingLines(f, d))
  {
    TidyField(0, "cell_cfg", "");
    TidyField(2, "ntn", "");
    TidyInt(f, 4, "cell_specific_koffset", d.koffset);
    TidyField(4, "ta_info", "");
    TidyFlt(f, 6, "ta_common", d.taCommon);
  }

  lemma DriftIsTidy(f: Format, drift: Option<TADrift>)
    requires OneLine(f)
    ensures Tidy(DriftLines(f, drift))
  {
    if drift.Some? {
      TidyFlt(f, 6, "ta_common_drift", drift.value.drift);
      TidyFlt(f, 6, "ta_common_drift_variant", drift.value.variant);
      TidyFlt(f, 6, "ta_common_offset", drift.value.offset);
    }
  }

  lemma PointIsTidy(f: Format, key: string, p: Option<Point>)
    requires OneLine(f) && Clean(key)
    ensures Tidy(PointLines(f, key, p))
  {
    if p.Some? {
      TidyField(4, key, "");
      TidyFlt(f, 6, "latitude", p.value.latitude);
      TidyFlt(f, 6, "longitude", p.value.longitude);
    }
  }

  lemma {:induction false} NeighboursAreTidy(f: Format, ns: seq<Neighbour>)
    requires OneLine(f)
    ensures Tidy(NeighbourLines(f, ns))
  {
    if ns != [] {
      var n := ns[|ns| - 1];
      NeighboursAreTidy(f, ns[..|ns| - 1]);
      TidyInt(f, 6, "- pci", n.pci);
      TidyInt(f, 8, "carrier_freq", n.frequency);
    }
  }

  lemma EpochIsTidy(f: Format, e: Option<EpochTime>)
    requires OneLine(f)
    ensures Tidy(EpochLines(f, e))
  {
    if e.Some? {
      TidyField(4, "epoch_time", "");
      TidyInt(f, 6, "sfn", e.value.sfn);
      TidyInt(f, 6, "subframe_number", e.value.subframe);
    }
  }

  lemma FeederIsTidy(f: Format, l: Option<FeederLink>)
    requires OneLine(f)
    ensures Tidy(FeederLines(f, l))
  {
    if l.Some? {
      TidyField(4, "feeder_link", "");
      TidyField(6, "enable_doppler_compensation", Bool(l.value.doppler));
      TidyInt(f, 6, "dl_freq", l.value.downlink);
      TidyInt(f, 6, "ul_freq", l.value.uplink);
    }
  }

  lemma GatewayIsTidy(f: Format, g: Option<(Point, int)>)
    requires OneLine(f)
    ensures Tidy(GatewayLines(f, g))
  {
    if g.Some? {
      PointIsTidy(f, "gateway_location", Some(g.value.0));
      TidyInt(f, 6, "altitude", g.value.1);
    }
  }

  lemma PolarizationIsTidy(f: Format, p: Polarization)
    requires OneLine(f)
    ensures Tidy(PolarizationLines(f, p))
  {
    TidyField(4, "polarization", "");
    Rendered(f, 0.0, 0, p.dl);
    Rendered(f, 0.0, 0, p.ul);
    TidyField(6, "dl", f.quote(p.dl));
    TidyField(6, "ul", f.quote(p.ul));
  }

  lemma ScalarsAreTidy(f: Format, d: Data)
    requires OneLine(f)
    ensures Tidy(DistanceLines(f, d.distance)) && Tidy(ReportLines(f, d.taReport)) && Tidy(SyncLines(f, d.ulSync))
  {
    if d.distance.Some? { TidyInt(f, 4, "distance_threshold", d.distance.value); }
    if d.taReport.Some? { TidyField(4, "ta_report", Bool(d.taReport.value)); }
    if d.ulSync.Some? { TidyInt(f, 4, "ntn_ul_sync_validity_dur", d.ulSync.value); }
  }

  lemma LinksAreTidy(f: Format, d: Data)
    requires OneLine(f)
    ensures Tidy(LinkLines(f, d))
  {
    EpochIsTidy(f, d.epochTime);
    FeederIsTidy(f, d.feeder);
    GatewayIsTidy(f, d.gateway);
    TidyField(4, "ncells", "");
    NeighboursAreTidy(f, d.neighbours);
    var a, b, c, e := EpochLines(f, d.epochTime), FeederLines(f, d.feeder), GatewayLines(f, d.gateway), NeighbourBlock(f, d.neighbours);
    TidyConcat(a, b);
    TidyConcat(a + b, c);
    TidyConcat(a + b + c, e);
  }

  lemma OthersAreTidy(f: Format, d: Data)
    requires OneLine(f)
    ensures Tidy(OtherLines(f, d))
  {
    PointIsTidy(f, "reference_location", d.reference);
    PointIsTidy(f, "moving_ref_location", d.moving);
    PolarizationIsTidy(f, d.polarization);
    ScalarsAreTidy(f, d);
    var a, b, c := PointLines(f, "reference_location", d.reference), DistanceLines(f, d.distance), PointLines(f, "moving_ref_location", d.moving);
    var g, h, k := PolarizationLines(f, d.polarization), ReportLines(f, d.taReport), SyncLines(f, d.ulSync);
    TidyConcat(a, b);
    TidyConcat(a + b, c);
    TidyConcat(a + b + c, g);
    TidyConcat(a + b + c + g, h);
    TidyConcat(a + b + c + g + h, k);
  }

  lemma SibOpeningIsTidy(f: Format, d: Data)
    requires OneLine(f)
    ensures Tidy(SibOpening(f, d))
  {
    TidyField(2, "sib", "");
    TidyInt(f, 4, "si_window_length", d.windowLength);
    TidyField(4, "si_sched_info", "");
  }

  lemma Sib2IsTidy(f: Format, d: Data)
    requires OneLine(f)
    ensures Tidy(Sib2Lines(f, d))
  {
    TidyComment(f, 6, 2);
    TidyComment(f, 6, 3);
    TidyComment(f, 6, 4);
    TidyInt(f, 6, "- si_period", d.period);
    TidyField(8, "sib_mapping", "[2]");
  }

  lemma Sib19IsTidy(f: Format, d: Data)
    requires OneLine(f)
    ensures Tidy(Sib19Lines(f, d))
  {
    TidyComment(f, 6, 5);
    TidyComment(f, 6, 6);
    TidyComment(f, 6, 7);
    TidyInt(f, 6, "- si_period", d.period);
    TidyField(8, "sib_mapping", "[19]");
    TidyInt(f, 8, "si_window_position", d.windowPosition);
  }

  lemma RetriesAreTidy(f: Format, d: Data)
    requires OneLine(f)
    ensures Tidy(RetryLines(f, d))
  {
    TidyField(2, "pdsch", "");
    TidyInt(f, 4, "max_nof_harq_retxs", d.pdschRetxs);
    TidyField(2, "prach", "");
    TidyInt(f, 4, "max_msg3_harq_retx", d.msg3Retx);
  }

  lemma GuardIsTidy(f: Format, d: Data)
    requires OneLine(f)
    ensures Tidy(GuardLines(f, d))
  {
    TidyField(0, "cu_cp", "");
    TidyField(2, "rrc", "");
    TidyInt(f, 4, "rrc_procedure_guard_time_ms", d.guardTime);
  }

  lemma FootIsTidy(f: Format, d: Data)
    requires OneLine(f)
    ensures Tidy(Foot(f, d))
  {
    SibOpeningIsTidy(f, d);
    Sib2IsTidy(f, d);
    Sib19IsTidy(f, d);
    RetriesAreTidy(f, d);
    GuardIsTidy(f, d);
    var a, b, c, e, g := SibOpening(f, d), Sib2Lines(f, d), Sib19Lines(f, d), RetryLines(f, d), GuardLines(f, d);
    TidyConcat(a, b);
    TidyConcat(a + b, c);
    TidyConcat(a + b + c, e);
    TidyConcat(a + b + c + e, g);
  }

  lemma HeadIsTidy(f: Format, d: Data)
    requires OneLine(f) && Clean(d.payloadType)
    ensures Tidy(Head(f, d))
  {
    BannerIsTidy(f, d.payloadType);
    TimingIsTidy(f, d);
    DriftIsTidy(f, d.taDrift);
    TidyConcat(Banner(f, d.payloadType), TimingLines(f, d));
    TidyConcat(Banner(f, d.payloadType) + TimingLines(f, d), DriftLines(f, d.taDrift));
  }

  lemma TailIsTidy(f: Format, d: Data)
    requires OneLine(f)
    ensures Tidy(Optionals(f, d) + Foot(f, d))
  {
    LinksAreTidy(f, d);
    OthersAreTidy(f, d);
    TidyConcat(LinkLines(f, d), OtherLines(f, d));
    FootIsTidy(f, d);
    TidyConcat(Optionals(f, d), Foot(f, d));
  }

  lemma TidyAround(head: seq<Line>, block: seq<Line>, tail: seq<Line>)
    requires Tidy(head) && Tidy(block) && Tidy(tail) && block != []
    ensures AllClean(ShowAll(head + block + tail)) && ShowAll(head + block + tail) != []
  {
    TidyShown(head + block + tail);
  }

  lemma LinesAreClean(f: Format, s: Spec)
    requires OneLine(f) && OneOf(s.ephemeris)
    ensures AllClean(ShowAll(Lines(f, DataOf(f, s)))) && ShowAll(Lines(f, DataOf(f, s))) != []
  {
    var d := DataOf(f, s);
    HeadIsTidy(f, d);
    BlockIsTidy(f, s.ephemeris, 4);
    TailIsTidy(f, d);
    TidyAround(Head(f, d), Block(f, s.ephemeris, 4), Optionals(f, d) + Foot(f, d));
    assert s.(ephemeris := s.ephemeris) == s;
    LinesAround(f, s, s.ephemeris);
  }

  /** Rewriting the block of a generated configuration is generating it from the spec with the new ephemeris. */
  lemma RewriteIsRegenerate(f: Format, s: Spec, e: Ephemeris)
    requires OneLine(f) && OneOf(s.ephemeris) && OneOf(e)
    ensures HasBlock(Split(Generated(f, s)))
    ensures Replace(RendererOf(f, e), Generated(f, s)) == Generated(f, s.(ephemeris := e))
  {
    LinesAreClean(f, s);
    SplitJoin(ShowAll(Lines(f, DataOf(f, s))));
    RewriteLinesIsRegenerate(f, s, e);
  }
}

/**
 The content of a template from its stack of layers, highest priority first. The meaning of a stack is its
 top layer's strategy applied to the meaning of the layers below; the resolver computes it from the nearest
 replacing layer upwards.
 */
module PresetComposition {
  import opened Frontmatter
  import opened Text
  import opened Wrappers

  datatype Kind = Template | Command | Script

  datatype Strategy = Replace | Prepend | Append | Wrap

  datatype Layer = Layer(source: string, strategy: Strategy, text: string)

  /** A wrapping layer without its placeholder. */
  datatype MissingPlaceholder = MissingPlaceholder(source: string)

  /** A composed content, or None when no layer replaces, or the error of the lowest faulty wrapper. */
  type Composed = Result<Option<string>, MissingPlaceholder>

  function Placeholder(kind: Kind): (p: string)
    ensures p != ""
  {
    if kind.Script? then "$CORE_SCRIPT" else "{CORE_TEMPLATE}"
  }

  // ---- meaning -------------------------------------------------------------------------------

  /** What a layer contributes: for a command, its text without its metadata block. */
  function Body(kind: Kind, layer: Layer): string {
    if kind.Command? then Split(layer.text).body else layer.text
  }

  /** One layer over the content below it. */
  function Over(kind: Kind, layer: Layer, below: string): Result<string, MissingPlaceholder> {
    var body := Body(kind, layer);
    match layer.strategy
    case Replace => Ok(body)
    case Prepend => Ok(body + "\n\n" + below)
    case Append => Ok(below + "\n\n" + body)
    case Wrap =>
      if !Contains(body, Placeholder(kind)) then Err(MissingPlaceholder(layer.source))
      else Ok(ReplaceAll(body, Placeholder(kind), below))
  }

  function Meaning(kind: Kind, layers: seq<Layer>): Composed {
    if layers == [] then Ok(None)
    else if layers[0].strategy.Replace? then Ok(Some(Body(kind, layers[0])))
    else
      match Meaning(kind, layers[1..])
      case Err(e) => Err(e)
      case Ok(None) => Ok(None)
      case Ok(Some(below)) =>
        match Over(kind, layers[0], below)
        case Err(e) => Err(e)
        case Ok(content) => Ok(Some(content))
  }

  /** The index of the nearest replacing layer, or the number of layers. */
  function Nearest(layers: seq<Layer>): (i: nat)
    ensures i <= |layers|
    ensures i < |layers| ==> layers[i].strategy.Replace?
    ensures forall j :: 0 <= j < i ==> !layers[j].strategy.Replace?
  {
    if layers == [] || layers[0].strategy.Replace? then 0 else 1 + Nearest(layers[1..])
  }

  /** The metadata block of the highest contributing layer that has one. */
  function TopBlock(layers: seq<Layer>): Option<string> {
    if layers == [] then None
    else if Split(layers[0].text).block.Some? || layers[0].strategy.Replace? then Split(layers[0].text).block
    else TopBlock(layers[1..])
  }

  function BaseBlock(layers: seq<Layer>): Option<string> {
    if Nearest(layers) < |layers| then Split(layers[Nearest(layers)].text).block else None
  }

  /** The fields the composed command carries. */
  function CommandFields(yaml: Yaml, layers: seq<Layer>): Fields {
    match TopBlock(layers)
    case None => []
    case Some(top) =>
      Rendered(FieldsOf(yaml, top), match BaseBlock(layers) case Some(base) => FieldsOf(yaml, base) case None => [])
  }

  function Attach(yaml: Yaml, fields: Fields, content: string): string {
    if fields == [] then content else Block(yaml.dump(fields)) + "\n\n" + content
  }

  /** The content of the stack. A replacing top layer is taken as it is, metadata and all. */
  function Resolved(kind: Kind, yaml: Yaml, layers: seq<Layer>): Composed {
    if layers != [] && layers[0].strategy.Replace? then Ok(Some(layers[0].text))
    else
      match Meaning(kind, layers)
      case Ok(Some(content)) => Ok(Some(if kind.Command? then Attach(yaml, CommandFields(yaml, layers), content) else content))
      case other => other
  }

  // ---- the resolver --------------------------------------------------------------------------

  method SplitLayer(kind: Kind, text: string) returns (parts: Parts)
    ensures parts == if kind.Command? then Split(text) else Parts(None, text)
  {
    if kind.Command? {
      parts := SplitFrontmatter(text);
    } else {
      parts := Parts(None, text);
    }
  }

  method FindBase(layers: seq<Layer>) returns (base: int)
    ensures base == if Nearest(layers) < |layers| then Nearest(layers) else -1
  {
    base := -1;
    var i := 0;
    while i < |layers| && base == -1
      invariant 0 <= i <= |layers|
      invariant if base == -1 then Nearest(layers) == i + Nearest(layers[i..]) else base == Nearest(layers) < |layers|
    {
      assert layers[i..][1..] == layers[i + 1..];
      if layers[i].strategy.Replace? {
        base := i;
      }
      i := i + 1;
    }
  }

  /** From the base upwards: the body, and the blocks the output is labelled with. */
  method ComposeUpwards(kind: Kind, layers: seq<Layer>, base: nat)
      returns (content: Result<string, MissingPlaceholder>, topBlock: Option<string>, baseBlock: Option<string>)
    requires base < |layers| && base == Nearest(layers)
    ensures Meaning(kind, layers) == match content case Ok(c) => Ok(Some(c)) case Err(e) => Err(e)
    ensures kind.Command? && content.Ok? ==> topBlock == TopBlock(layers) && baseBlock == BaseBlock(layers)
  {
    hide Split, Over, Nearest;
    var parts := SplitLayer(kind, layers[base].text);
    var text := parts.body;
    topBlock, baseBlock := parts.block, parts.block;
    BaseAlone(kind, layers);
    var i: nat := base;
    while i > 0
      invariant i <= base
      invariant Meaning(kind, layers[i..]) == Ok(Some(text))
      invariant kind.Command? ==> topBlock == TopBlock(layers[i..]) && baseBlock == BaseBlock(layers)
    {
      i := i - 1;
      OneLayerUp(kind, layers, i);
      var applied, block := ApplyLayer(kind, layers[i], text);
      if applied.Err? {
        FaultStops(kind, layers, i);
        return Err(applied.error), topBlock, baseBlock;
      }
      text := applied.value;
      if block.Some? {
        topBlock := block;
      }
    }
    assert layers[0..] == layers;
    return Ok(text), topBlock, baseBlock;
  }

  /** One layer over the content so far, and the block the layer has. */
  method ApplyLayer(kind: Kind, layer: Layer, text: string) returns (r: Result<string, MissingPlaceholder>, block: Option<string>)
    ensures r == Over(kind, layer, text)
    ensures kind.Command? ==> block == Split(layer.text).block
  {
    var parts := SplitLayer(kind, layer.text);
    block := parts.block;
    match layer.strategy {
      case Replace => r := Ok(parts.body);
      case Prepend => r := Ok(parts.body + "\n\n" + text);
      case Append => r := Ok(text + "\n\n" + parts.body);
      case Wrap =>
        if !Contains(parts.body, Placeholder(kind)) {
          r := Err(MissingPlaceholder(layer.source));
        } else {
          r := Ok(ReplaceAll(parts.body, Placeholder(kind), text));
        }
    }
  }

  lemma BaseAlone(kind: Kind, layers: seq<Layer>)
    requires Nearest(layers) < |layers|
    ensures var base := Nearest(layers);
            && Meaning(kind, layers[base..]) == Ok(Some(Body(kind, layers[base])))
            && TopBlock(layers[base..]) == BaseBlock(layers) == Split(layers[base].text).block
  {
    hide Split;
  }

  lemma OneLayerUp(kind: Kind, layers: seq<Layer>, i: nat)
    requires i < Nearest(layers) < |layers| && Meaning(kind, layers[i + 1..]).Ok? && Meaning(kind, layers[i + 1..]).value.Some?
    ensures Meaning(kind, layers[i..])
         == match Over(kind, layers[i], Meaning(kind, layers[i + 1..]).value.value) case Err(e) => Err(e) case Ok(c) => Ok(Some(c))
    ensures TopBlock(layers[i..]) == if Split(layers[i].text).block.Some? then Split(layers[i].text).block else TopBlock(layers[i + 1..])
  {
    hide Split, Over, Nearest;
    assert layers[i..][1..] == layers[i + 1..];
  }

  /** An error below surfaces through all layers above. */
  lemma {:induction false} FaultStops(kind: Kind, layers: seq<Layer>, i: nat)
    requires i < Nearest(layers) < |layers| && Meaning(kind, layers[i..]).Err?
    ensures Meaning(kind, layers) == Meaning(kind, layers[i..])
  {
    if i == 0 {
      assert layers[0..] == layers;
    } else {
      assert layers[1..][i - 1..] == layers[i..];
      FaultStops(kind, layers[1..], i - 1);
    }
  }

  method ResolveContent(kind: Kind, yaml: Yaml, layers: seq<Layer>) returns (r: Composed)
    ensures r == Resolved(kind, yaml, layers)
  {
    if layers == [] {
      return Ok(None);
    }
    if layers[0].strategy.Replace? {
      return Ok(Some(layers[0].text));
    }
    var base := FindBase(layers);
    if base == -1 {
      DefinedIffReplaced(kind, layers);
      return Ok(None);
    }
    var content, topBlock, baseBlock := ComposeUpwards(kind, layers, base);
    if content.Err? {
      return Err(content.error);
    }
    if !kind.Command? || topBlock.None? {
      return Ok(Some(content.value));
    }
    var fields := FieldsOf(yaml, topBlock.value);
    if baseBlock.Some? && baseBlock != topBlock {
      var base := FieldsOf(yaml, baseBlock.value);
      fields := InheritKey(InheritKey(fields, base, "scripts"), base, "agent_scripts");
    }
    fields := Without(fields, "strategy");
    assert fields == CommandFields(yaml, layers) by { NothingToInherit(FieldsOf(yaml, topBlock.value)); }
    if fields == [] {
      return Ok(Some(content.value));
    }
    return Ok(Some("---\n" + yaml.dump(fields) + "\n---" + "\n\n" + content.value));
  }

  /** Without a base block, or with the top block as base, nothing is inherited. */
  lemma NothingToInherit(fields: Fields)
    ensures Rendered(fields, []) == Without(fields, "strategy") == Rendered(fields, fields)
  {
  }

  // ---- what the stack means ------------------------------------------------------------------

  /** A stack has a content unless no layer replaces; only a wrapper can make it fail. */
  lemma {:induction false} DefinedIffReplaced(kind: Kind, layers: seq<Layer>)
    ensures Meaning(kind, layers) == Ok(None) <==> forall i :: 0 <= i < |layers| ==> !layers[i].strategy.Replace?
  {
    if layers != [] && !layers[0].strategy.Replace? {
      DefinedIffReplaced(kind, layers[1..]);
    }
  }

  /** Layers below the nearest replacing one never matter. */
  lemma BelowBaseIsIrrelevant(kind: Kind, yaml: Yaml, above: seq<Layer>, base: Layer, below: seq<Layer>)
    requires base.strategy.Replace?
    ensures Resolved(kind, yaml, above + [base] + below) == Resolved(kind, yaml, above + [base])
  {
    CutBelowBase(kind, above, base, below);
    if above == [] {
      assert (above + [base] + below)[0] == base == (above + [base])[0];
    } else {
      assert (above + [base] + below)[0] == above[0] == (above + [base])[0];
    }
  }

  lemma {:induction false} CutBelowBase(kind: Kind, above: seq<Layer>, base: Layer, below: seq<Layer>)
    requires base.strategy.Replace?
    ensures var all, cut := above + [base] + below, above + [base];
            && Nearest(all) == Nearest(cut) < |cut| && BaseBlock(all) == BaseBlock(cut)
            && Meaning(kind, all) == Meaning(kind, cut) && TopBlock(all) == TopBlock(cut)
  {
    var all, cut := above + [base] + below, above + [base];
    hide Split, Over, Body;
    if above == [] {
      assert all[0] == base == cut[0];
    } else {
      CutBelowBase(kind, above[1..], base, below);
      assert all[1..] == above[1..] + [base] + below && cut[1..] == above[1..] + [base];
      SameTop(kind, all, cut);
    }
  }

  lemma SameTop(kind: Kind, all: seq<Layer>, cut: seq<Layer>)
    requires cut != [] && cut <= all && Nearest(all[1..]) == Nearest(cut[1..]) < |cut[1..]|
    requires Meaning(kind, all[1..]) == Meaning(kind, cut[1..]) && TopBlock(all[1..]) == TopBlock(cut[1..])
    ensures Nearest(all) == Nearest(cut) < |cut| && BaseBlock(all) == BaseBlock(cut)
    ensures Meaning(kind, all) == Meaning(kind, cut) && TopBlock(all) == TopBlock(cut)
  {
    hide Split, Over, Body;
    assert all[0] == cut[0];
  }

  function Prepends(kind: Kind, layers: seq<Layer>): string {
    if layers == [] then ""
    else (if layers[0].strategy.Prepend? then Body(kind, layers[0]) + "\n\n" else "") + Prepends(kind, layers[1..])
  }

  function Appends(kind: Kind, layers: seq<Layer>): string {
    if layers == [] then ""
    else Appends(kind, layers[1..]) + if layers[0].strategy.Append? then "\n\n" + Body(kind, layers[0]) else ""
  }

  lemma PlacedBefore(own: string, prepends: string, base: string, appends: string)
    ensures own + "\n\n" + (prepends + base + appends) == (own + "\n\n" + prepends) + base + (appends + "")
  {
  }

  lemma PlacedAfter(own: string, prepends: string, base: string, appends: string)
    ensures (prepends + base + appends) + "\n\n" + own == ("" + prepends) + base + (appends + ("\n\n" + own))
  {
  }

  /** Without wrappers: what is prepended from the top down, the base, and what is appended from the bottom up. */
  lemma {:induction false} NormalForm(kind: Kind, above: seq<Layer>, base: Layer)
    requires base.strategy.Replace? && forall l :: l in above ==> l.strategy.Prepend? || l.strategy.Append?
    ensures Meaning(kind, above + [base]) == Ok(Some(Prepends(kind, above) + Body(kind, base) + Appends(kind, above)))
  {
    hide Body;
    if above == [] {
      assert above + [base] == [base];
      assert "" + Body(kind, base) + "" == Body(kind, base);
    } else {
      assert (above + [base])[1..] == above[1..] + [base];
      assert above[0] in above;
      NormalForm(kind, above[1..], base);
      PlacedBefore(Body(kind, above[0]), Prepends(kind, above[1..]), Body(kind, base), Appends(kind, above[1..]));
      PlacedAfter(Body(kind, above[0]), Prepends(kind, above[1..]), Body(kind, base), Appends(kind, above[1..]));
    }
  }

  /** A wrapper's own text is kept around each copy of what it wraps, which is put in as it is. */
  lemma WrapKeepsPieces(kind: Kind, layer: Layer, below: string)
    requires layer.strategy.Wrap?
    ensures Over(kind, layer, below).Ok? <==> |Pieces(Body(kind, layer), Placeholder(kind))| > 1
    ensures Over(kind, layer, below).Ok? ==> Over(kind, layer, below).value == Join(Pieces(Body(kind, layer), Placeholder(kind)), below)
    ensures Join(Pieces(Body(kind, layer), Placeholder(kind)), Placeholder(kind)) == Body(kind, layer)
  {
    var body, p := Body(kind, layer), Placeholder(kind);
    PiecesIffContains(body, p);
    ReplaceJoinsPieces(body, p, below);
    ReplaceJoinsPieces(body, p, p);
    ReplaceByItself(body, p);
  }

  predicate Faulty(kind: Kind, layer: Layer) {
    layer.strategy.Wrap? && !Contains(Body(kind, layer), Placeholder(kind))
  }

  lemma MeaningFails(kind: Kind, layers: seq<Layer>)
    requires 0 < Nearest(layers) < |layers|
    ensures Nearest(layers[1..]) == Nearest(layers) - 1
    ensures Meaning(kind, layers).Err? <==> Meaning(kind, layers[1..]).Err? || Faulty(kind, layers[0])
    ensures Meaning(kind, layers).Err? ==>
              Meaning(kind, layers) == if Meaning(kind, layers[1..]).Err? then Meaning(kind, layers[1..]) else Err(MissingPlaceholder(layers[0].source))
  {
    hide Contains, ReplaceAll, Body, Placeholder;
    DefinedIffReplaced(kind, layers[1..]);
  }

  /** A faulty wrapper above the base fails the composition, */
  lemma {:induction false} FaultFails(kind: Kind, layers: seq<Layer>, i: nat)
    requires i < Nearest(layers) < |layers| && Faulty(kind, layers[i])
    ensures Meaning(kind, layers).Err?
  {
    MeaningFails(kind, layers);
    hide Faulty, Meaning;
    if i > 0 { FaultFails(kind, layers[1..], i - 1); }
  }

  /** nothing else does, and the error names the lowest one. */
  lemma {:induction false} LowestFault(kind: Kind, layers: seq<Layer>) returns (i: nat)
    requires Nearest(layers) < |layers| && Meaning(kind, layers).Err?
    ensures i < Nearest(layers) && Faulty(kind, layers[i])
    ensures Meaning(kind, layers) == Err(MissingPlaceholder(layers[i].source))
    ensures forall j :: i < j < Nearest(layers) ==> !Faulty(kind, layers[j])
  {
    MeaningFails(kind, layers);
    hide Faulty, Meaning;
    var rest := layers[1..];
    if Meaning(kind, rest).Err? {
      i := LowestFault(kind, rest);
      i := i + 1;
      forall j | i < j < Nearest(layers) ensures !Faulty(kind, layers[j]) { assert layers[j] == rest[j - 1]; }
    } else {
      i := 0;
      forall j | 0 < j < Nearest(layers) ensures !Faulty(kind, layers[j]) {
        if Faulty(kind, layers[j]) { FaultFails(kind, rest, j - 1); }
      }
    }
  }

  // ---- how a composed body opens -------------------------------------------------------------

  /** The contributions of a stack without wrappers, in the order they come in the result. */
  function Bodies(kind: Kind, above: seq<Layer>, base: Layer): (bodies: seq<string>)
    ensures |bodies| == |above| + 1
  {
    if above == [] then [Body(kind, base)]
    else if above[0].strategy.Prepend? then [Body(kind, above[0])] + Bodies(kind, above[1..], base)
    else Bodies(kind, above[1..], base) + [Body(kind, above[0])]
  }

  lemma {:induction false} JoinOneMore(pieces: seq<string>, last: string, fill: string)
    requires pieces != []
    ensures Join(pieces + [last], fill) == Join(pieces, fill) + fill + last
  {
    var all := pieces + [last];
    if |pieces| == 1 {
      assert all[1..] == [last];
    } else {
      assert all[1..] == pieces[1..] + [last];
      JoinOneMore(pieces[1..], last, fill);
      assert pieces[0] + fill + (Join(pieces[1..], fill) + fill + last) == (pieces[0] + fill + Join(pieces[1..], fill)) + fill + last;
    }
  }

  /** Such a stack means its contributions with an empty line between each two. */
  lemma {:induction false} MeaningIsJoined(kind: Kind, above: seq<Layer>, base: Layer)
    requires base.strategy.Replace? && forall l :: l in above ==> l.strategy.Prepend? || l.strategy.Append?
    ensures Meaning(kind, above + [base]) == Ok(Some(Join(Bodies(kind, above, base), "\n\n")))
  {
    hide Body;
    if above == [] {
      assert above + [base] == [base];
    } else {
      assert (above + [base])[1..] == above[1..] + [base];
      assert above[0] in above;
      MeaningIsJoined(kind, above[1..], base);
      var rest := Bodies(kind, above[1..], base);
      if above[0].strategy.Prepend? {
        assert ([Body(kind, above[0])] + rest)[1..] == rest;
      } else {
        JoinOneMore(rest, Body(kind, above[0]), "\n\n");
      }
    }
  }

  /** The lines of the contributions, one after the other. */
  function StackedLines(bodies: seq<string>): seq<string>
    requires bodies != []
  {
    if |bodies| == 1 then SplitLines(bodies[0]) else SplitLines(bodies[0] + "\n") + ["\n"] + StackedLines(bodies[1..])
  }

  lemma {:induction false} LinesOfJoined(bodies: seq<string>)
    requires bodies != []
    ensures SplitLines(Join(bodies, "\n\n")) == StackedLines(bodies)
  {
    hide SplitLines;
    if |bodies| > 1 {
      LinesOfTwo(bodies[0], Join(bodies[1..], "\n\n"));
      LinesOfJoined(bodies[1..]);
    }
  }

  /** Whether the stack can be seen not to open with a dash: its topmost text does not, or what it leaves on top does not. */
  predicate OpensUndashed(kind: Kind, layers: seq<Layer>) {
    layers != [] &&
    match layers[0].strategy
    case Replace => Undashed(Body(kind, layers[0]))
    case Prepend => Undashed(Body(kind, layers[0]))
    case Append => OpensUndashed(kind, layers[1..])
    case Wrap =>
      && Undashed(PastLeading(Body(kind, layers[0]), Placeholder(kind)))
      && (Placeholder(kind) <= Body(kind, layers[0]) ==> OpensUndashed(kind, layers[1..]))
  }

  /** A wrapper's text after the placeholders it opens with. */
  function PastLeading(s: string, p: string): string
    requires p != ""
    decreases |s|
  {
    if p <= s then PastLeading(s[|p|..], p) else s
  }

  lemma {:induction false} FilledIsUndashed(s: string, p: string, fill: string)
    requires p != "" && Undashed(PastLeading(s, p)) && (p <= s ==> Undashed(fill))
    ensures Undashed(ReplaceAll(s, p, fill))
    decreases |s|
  {
    if p <= s {
      if fill == "" { FilledIsUndashed(s[|p|..], p, fill); }
    }
  }

  lemma {:induction false} MeaningIsUndashed(kind: Kind, layers: seq<Layer>)
    requires OpensUndashed(kind, layers) && Meaning(kind, layers).Ok? && Meaning(kind, layers).value.Some?
    ensures Undashed(Meaning(kind, layers).value.value)
  {
    hide Body, PastLeading, ReplaceAll, Contains, Placeholder;
    if !layers[0].strategy.Replace? {
      var below := Meaning(kind, layers[1..]).value.value;
      match layers[0].strategy {
        case Append => MeaningIsUndashed(kind, layers[1..]);
        case Wrap =>
          if Placeholder(kind) <= Body(kind, layers[0]) { MeaningIsUndashed(kind, layers[1..]); }
          FilledIsUndashed(Body(kind, layers[0]), Placeholder(kind), below);
        case _ =>
      }
    }
  }

  // ---- metadata of composed commands ---------------------------------------------------------

  /**
   A composed command with fields to show carries exactly one block, printed from them, over the composition of the
   bodies alone; splitting it again gives both back.
   */
  lemma ComposedCommandSplits(yaml: Yaml, layers: seq<Layer>)
    requires PrintsMappings(yaml)
    requires Nearest(layers) < |layers| && !layers[0].strategy.Replace? && Meaning(Command, layers).Ok?
    ensures Meaning(Command, layers).value.Some? && Resolved(Command, yaml, layers).Ok? && Resolved(Command, yaml, layers).value.Some?
    ensures var output, body, fields := Resolved(Command, yaml, layers).value.value, Meaning(Command, layers).value.value, CommandFields(yaml, layers);
            if fields == [] then output == body && (OpensUndashed(Command, layers) ==> Split(output) == Parts(None, output))
            else Split(output) == Parts(Some(Block(yaml.dump(fields))), "\n" + body) && Split("\n" + body).block.None?
  {
    DefinedIffReplaced(Command, layers);
    var body, fields := Meaning(Command, layers).value.value, CommandFields(yaml, layers);
    if fields != [] {
      SplitOfAttached(yaml.dump(fields), body);
      NoSecondBlock(body);
    } else if OpensUndashed(Command, layers) {
      MeaningIsUndashed(Command, layers);
      UndashedIsPlain(body);
    }
  }

  /**
   Without fields and wrappers, a composed command splits to itself unless the lines of its contributions
   open with a fence and hold another.
   */
  lemma UnlabelledSplitsIff(yaml: Yaml, above: seq<Layer>, base: Layer)
    requires above != [] && base.strategy.Replace? && forall l :: l in above ==> l.strategy.Prepend? || l.strategy.Append?
    requires CommandFields(yaml, above + [base]) == []
    ensures Resolved(Command, yaml, above + [base]).Ok? && Resolved(Command, yaml, above + [base]).value.Some?
    ensures var output := Resolved(Command, yaml, above + [base]).value.value;
            Split(output) == Parts(None, output) <==> !Fenced(StackedLines(Bodies(Command, above, base)))
  {
    var layers, bodies := above + [base], Bodies(Command, above, base);
    assert layers[0] == above[0] && above[0] in above;
    hide Split, Fenced, CommandFields, Bodies, StackedLines, SplitLines;
    MeaningIsJoined(Command, above, base);
    LinesOfJoined(bodies);
    FencedIff(Join(bodies, "\n\n"));
  }

  /** Whose block it is: the highest contributing layer with one gives the fields, the base lends its scripts, the strategy is gone. */
  lemma {:induction false} TopBlockIsHighest(layers: seq<Layer>)
    requires Nearest(layers) < |layers|
    ensures exists i :: 0 <= i <= Nearest(layers) && TopBlock(layers) == Split(layers[i].text).block
                        && (TopBlock(layers).None? ==> i == Nearest(layers))
                        && forall j :: 0 <= j < i ==> Split(layers[j].text).block.None?
  {
    hide Split;
    if Split(layers[0].text).block.None? && !layers[0].strategy.Replace? {
      var rest := layers[1..];
      TopBlockIsHighest(rest);
      var i :| 0 <= i <= Nearest(rest) && TopBlock(rest) == Split(rest[i].text).block
               && (TopBlock(rest).None? ==> i == Nearest(rest))
               && forall j :: 0 <= j < i ==> Split(rest[j].text).block.None?;
      assert layers[i + 1] == rest[i];
      forall j | 0 <= j < i + 1 ensures Split(layers[j].text).block.None? { if j > 0 { assert layers[j] == rest[j - 1]; } }
    } else {
      assert TopBlock(layers) == Split(layers[0].text).block;
    }
  }

  /** What a layer adds to a command is its text below the block, and to a template or script its text. */
  lemma ContributionOf(source: string, strategy: Strategy, dump: string, body: string)
    requires Printed(dump)
    ensures var text := Block(dump) + "\n\n" + body;
            && Body(Command, Layer(source, strategy, text)) == "\n" + body
            && Body(Template, Layer(source, strategy, text)) == text == Body(Script, Layer(source, strategy, text))
  {
    SplitOfAttached(dump, body);
    hide Split, Block;
  }

  lemma PlainContribution(source: string, strategy: Strategy, text: string)
    requires Undashed(text)
    ensures Body(Command, Layer(source, strategy, text)) == text
  {
    UndashedIsPlain(text);
    hide Split;
  }

  /** The printer's text is read back as what was printed. */
  ghost predicate ReadsBack(yaml: Yaml) {
    forall fields :: fields != [] ==> PlainLines(yaml.dump(fields)) && yaml.parse(yaml.dump(fields)) == fields
  }

  /** Reading the composed command's metadata gives the fields it was to carry. */
  lemma ComposedFieldsReadBack(yaml: Yaml, layers: seq<Layer>)
    requires PrintsMappings(yaml) && ReadsBack(yaml) && CommandFields(yaml, layers) != []
    requires Nearest(layers) < |layers| && !layers[0].strategy.Replace? && Meaning(Command, layers).Ok?
    ensures Resolved(Command, yaml, layers).Ok? && Resolved(Command, yaml, layers).value.Some?
    ensures var output := Resolved(Command, yaml, layers).value.value;
            Split(output).block.Some? && FieldsOf(yaml, Split(output).block.value) == CommandFields(yaml, layers)
  {
    ComposedCommandSplits(yaml, layers);
    FieldsOfPrinted(yaml, yaml.dump(CommandFields(yaml, layers)));
    hide Resolved, Meaning, CommandFields, Split, FieldsOf, Block;
  }

  lemma FieldsOfComposed(yaml: Yaml, layers: seq<Layer>, key: string)
    requires TopBlock(layers).Some? && Nearest(layers) < |layers|
    ensures var top := FieldsOf(yaml, TopBlock(layers).value);
            var base := match BaseBlock(layers) case Some(b) => FieldsOf(yaml, b) case None => [];
            Lookup(CommandFields(yaml, layers), key)
            == if key == "strategy" then None
               else if (key == "scripts" || key == "agent_scripts") && !HasKey(top, key) then Lookup(base, key)
               else Lookup(top, key)
  {
    hide Split, Lookup, HasKey, FieldsOf, Rendered;
    RenderedField(FieldsOf(yaml, TopBlock(layers).value),
                  match BaseBlock(layers) case Some(b) => FieldsOf(yaml, b) case None => [], key);
  }

  /** With no block to show, a body that happens to open with fences is read as a block by the next reader. */
  lemma UnlabelledBodyMayLookFenced()
    ensures var layers := [Layer("top", Append, "---\n"), Layer("base", Replace, "---\n")];
            && TopBlock(layers).None?
            && Meaning(Command, layers) == Ok(Some("---\n" + "\n\n" + "---\n"))
            && Split("---\n" + "\n\n" + "---\n").block.Some?
  {
    var layers := [Layer("top", Append, "---\n"), Layer("base", Replace, "---\n")];
    LoneFence();
    hide Split;
    assert layers[1..] == [layers[1]];
    RuledText();
  }

  lemma LoneFence()
    ensures SplitLines("---\n") == ["---\n"] && Split("---\n") == Parts(None, "---\n")
  {
    OneLine("---");
    assert "---" + "\n" == "---\n";
    FenceLine();
  }

  lemma NoLines()
    ensures SplitLines("") == []
  {
  }

  lemma RuledText()
    ensures Split("---\n" + "\n\n" + "---\n").block.Some?
  {
    var text := "---\n" + "\n\n" + "---\n";
    LoneFence();
    assert SplitLines("\n") == ["\n"] by { OneLine(""); assert "" + "\n" == "\n"; }
    assert !IsFence("\n") by { assert "\n"[..0] == ""; }
    hide Split, SplitLines, IsFence;
    LinesOfMore("\n", "\n");
    assert "\n" + "\n" == "\n\n";
    LinesAround("---\n", "\n\n", "");
    NoLines();
    assert text == "---\n" + ("\n\n" + ("---\n" + ""));
    assert SplitLines(text) == ["---\n"] + ["\n", "\n"] + ["---\n"] + [];
    SplitOfLines(text, ["\n", "\n"], []);
  }
}

/**
 The stack a command is resolved over: project overrides, installed presets by priority, extensions and core.
 It depends on which presets are installed, never on the order they came in.
 */
module PresetStack {
  import opened Frontmatter
  import opened PresetComposition
  import opened Text
  import opened Wrappers

  /** A command a preset's manifest lists: the text of its file if there is one, and its strategy if it declares one. */
  datatype CommandTemplate = CommandTemplate(name: string, file: Option<string>, declared: Option<Strategy>)

  datatype Preset = Preset(id: string, commands: seq<CommandTemplate>)

  /** A registry entry; `registered` are the command files written for it. */
  datatype Entry = Entry(priority: int, preset: Preset, registered: seq<string>)

  datatype Provider = Extension(id: string) | Core

  datatype Origin = Override | FromPreset(id: string) | Below(provider: Provider)

  datatype Provided = Provided(provider: Provider, text: string)

  /** What surrounds the presets: overrides, what extensions and core provide for a command, and the extensions there are. */
  datatype Project = Project(yaml: Yaml, overrides: map<string, string>, lower: map<string, seq<Provided>>, extensions: set<string>)

  type Registry = map<string, Entry>

  // ---- order ---------------------------------------------------------------------------------

  /** A lower priority number goes first, then the smaller id. */
  predicate Before(reg: Registry, a: string, b: string)
    requires a in reg && b in reg
  {
    reg[a].priority < reg[b].priority || (reg[a].priority == reg[b].priority && Less(a, b))
  }

  predicate IsFirst(reg: Registry, id: string) {
    id in reg && forall other :: other in reg && other != id ==> Before(reg, id, other)
  }

  lemma FirstIsUnique(reg: Registry, a: string, b: string)
    requires IsFirst(reg, a) && IsFirst(reg, b)
    ensures a == b
  {
    if a != b {
      assert Before(reg, a, b) && Before(reg, b, a);
      LessIsTotal(a, b);
    }
  }

  lemma {:induction false} FirstExists(reg: Registry)
    requires reg != map[]
    ensures exists id :: IsFirst(reg, id)
    decreases |reg|
  {
    var id :| id in reg;
    var rest := reg - {id};
    if rest == map[] {
      assert forall other :: other in reg ==> other == id || other in rest;
      assert IsFirst(reg, id);
    } else {
      FirstExists(rest);
      var best :| IsFirst(rest, best);
      LessIsTotal(id, best);
      if !Before(reg, id, best) {
        forall other | other in reg && other != best ensures Before(reg, best, other) {
          if other != id { assert Before(rest, best, other); }
        }
        assert IsFirst(reg, best);
      } else {
        forall other | other in reg && other != id ensures Before(reg, id, other) {
          if other != best {
            assert Before(rest, best, other);
            if Less(id, best) && Less(best, other) { LessIsTransitive(id, best, other); }
          }
        }
        assert IsFirst(reg, id);
      }
    }
  }

  function First(reg: Registry): (id: string)
    requires reg != map[]
    ensures IsFirst(reg, id)
  {
    FirstExists(reg);
    assert forall a, b :: IsFirst(reg, a) && IsFirst(reg, b) ==> a == b by {
      forall a, b | IsFirst(reg, a) && IsFirst(reg, b) ensures a == b { FirstIsUnique(reg, a, b); }
    }
    var id: string :| id in reg && IsFirst(reg, id);
    id
  }

  /** The installed presets, first priority first. */
  function Listing(reg: Registry): seq<string>
    decreases |reg|
  {
    if reg == map[] then [] else [First(reg)] + Listing(reg - {First(reg)})
  }

  lemma {:induction false} ListingHasAll(reg: Registry)
    ensures forall id :: id in Listing(reg) <==> id in reg
    decreases |reg|
  {
    hide First;
    if reg != map[] {
      ListingHasAll(reg - {First(reg)});
    }
  }

  /** All ids of the registry, each before the next. */
  ghost predicate InOrder(reg: Registry, ids: seq<string>) {
    && (forall id :: id in ids <==> id in reg)
    && (forall i, j :: 0 <= i < j < |ids| ==> ids[i] in reg && ids[j] in reg && Before(reg, ids[i], ids[j]))
  }

  /** The first preset in front of the others in order. */
  lemma FirstInFront(reg: Registry, first: string, ids: seq<string>)
    requires IsFirst(reg, first) && InOrder(reg - {first}, ids)
    ensures InOrder(reg, [first] + ids)
  {
    hide Less;
    var rest, all := reg - {first}, [first] + ids;
    forall i, j | 0 <= i < j < |all| ensures all[i] in reg && all[j] in reg && Before(reg, all[i], all[j]) {
      var other := all[j];
      assert other == ids[j - 1] && other in ids && other in rest;
      if i == 0 {
        assert all[i] == first;
      } else {
        assert all[i] == ids[i - 1] && Before(rest, ids[i - 1], ids[j - 1]);
      }
    }
    forall id ensures id in all <==> id in reg {
      assert id in all <==> id == first || id in ids;
    }
  }

  /** The listing is in order. */
  lemma {:induction false} ListingInOrder(reg: Registry)
    ensures InOrder(reg, Listing(reg))
    decreases |reg|
  {
    hide InOrder, First;
    if reg == map[] {
      NothingInOrder(reg);
    } else {
      ListingInOrder(reg - {First(reg)});
      FirstInFront(reg, First(reg), Listing(reg - {First(reg)}));
    }
  }

  lemma NothingInOrder(reg: Registry)
    requires reg == map[]
    ensures InOrder(reg, [])
  {
  }

  lemma HeadIsFirst(reg: Registry, ids: seq<string>)
    requires ids != [] && InOrder(reg, ids)
    ensures reg != map[] && ids[0] == First(reg)
  {
    assert ids[0] in ids;
    hide Before;
    forall other | other in reg && other != ids[0] ensures Before(reg, ids[0], other) {
      assert other in ids;
      var j :| 0 <= j < |ids| && ids[j] == other;
    }
    FirstIsUnique(reg, ids[0], First(reg));
  }

  lemma TailInOrder(reg: Registry, ids: seq<string>)
    requires ids != [] && InOrder(reg, ids)
    ensures InOrder(reg - {ids[0]}, ids[1..])
  {
    var rest, tail := reg - {ids[0]}, ids[1..];
    LessIsTotal(ids[0], ids[0]);
    forall i | 0 <= i < |tail| ensures tail[i] in rest {
      assert tail[i] == ids[i + 1] && ids[i + 1] in ids;
      assert Before(reg, ids[0], ids[i + 1]);
    }
    forall id | id in rest ensures id in tail {
      assert id in ids;
    }
    forall i, j | 0 <= i < j < |tail| ensures Before(rest, tail[i], tail[j]) {
      assert Before(reg, ids[i + 1], ids[j + 1]);
    }
  }

  /** Whatever way they are sorted, this is the result: only one arrangement is in order. */
  lemma {:induction false} ListingIsTheSortedOrder(reg: Registry, ids: seq<string>)
    requires InOrder(reg, ids)
    ensures ids == Listing(reg)
    decreases |reg|
  {
    hide InOrder, First;
    if ids == [] {
      NobodyInOrder(reg);
    } else {
      HeadIsFirst(reg, ids);
      TailInOrder(reg, ids);
      ListingIsTheSortedOrder(reg - {ids[0]}, ids[1..]);
      assert ids == [ids[0]] + ids[1..];
    }
  }

  lemma NobodyInOrder(reg: Registry)
    requires InOrder(reg, [])
    ensures reg == map[]
  {
    assert forall id :: id in reg ==> id in [];
  }

  // ---- layers --------------------------------------------------------------------------------

  function Lower(c: char): char {
    if 'A' <= c <= 'Z' then c + 32 as char else c
  }

  function LowerCase(s: string): string {
    if s == "" then "" else [Lower(s[0])] + LowerCase(s[1..])
  }

  function StrategyNamed(s: string): Option<Strategy> {
    if s == "replace" then Some(Replace)
    else if s == "prepend" then Some(Prepend)
    else if s == "append" then Some(Append)
    else if s == "wrap" then Some(Wrap)
    else None
  }

  /** Older files name their strategy in their own metadata. */
  function LegacyStrategy(yaml: Yaml, text: string): Strategy {
    match Split(text).block
    case None => Replace
    case Some(block) =>
      match Lookup(FieldsOf(yaml, block), "strategy")
      case None => Replace
      case Some(s) => match StrategyNamed(LowerCase(s)) case Some(strategy) => strategy case None => Replace
  }

  function EffectiveStrategy(yaml: Yaml, declared: Option<Strategy>, text: string): Strategy {
    match declared case Some(s) => s case None => LegacyStrategy(yaml, text)
  }

  /** The manifest entry that counts for a command: the first one with its name. */
  function TemplateFor(commands: seq<CommandTemplate>, name: string): (r: Option<CommandTemplate>)
    ensures r.Some? <==> exists t :: t in commands && t.name == name
    ensures r.Some? ==> r.value in commands && r.value.name == name
  {
    if commands == [] then None
    else if commands[0].name == name then Some(commands[0])
    else
      assert forall t :: t in commands && t.name == name ==> t in commands[1..];
      TemplateFor(commands[1..], name)
  }

  predicate Lists(preset: Preset, name: string) {
    TemplateFor(preset.commands, name).Some?
  }

  /** A preset's layer for a command, unless the listed file is missing. */
  function LayerOf(yaml: Yaml, preset: Preset, name: string): Option<Layer> {
    match TemplateFor(preset.commands, name)
    case Some(CommandTemplate(_, Some(text), declared)) => Some(Layer(preset.id, EffectiveStrategy(yaml, declared, text), text))
    case _ => None
  }

  function PresetLayers(yaml: Yaml, reg: Registry, ids: seq<string>, name: string): seq<Layer>
    requires forall id :: id in ids ==> id in reg
  {
    if ids == [] then []
    else
      (match LayerOf(yaml, reg[ids[0]].preset, name) case Some(layer) => [layer] case None => [])
      + PresetLayers(yaml, reg, ids[1..], name)
  }

  function LowerLayers(provided: seq<Provided>): seq<Layer> {
    if provided == [] then [] else [Layer("", Replace, provided[0].text)] + LowerLayers(provided[1..])
  }

  function LowerFor(project: Project, name: string): seq<Provided> {
    if name in project.lower then project.lower[name] else []
  }

  function OverrideLayers(project: Project, name: string): seq<Layer> {
    if name in project.overrides then [Layer("project override", Replace, project.overrides[name])] else []
  }

  function InstalledLayers(project: Project, reg: Registry, name: string): seq<Layer> {
    ListingHasAll(reg);
    PresetLayers(project.yaml, reg, Listing(reg), name)
  }

  /** All layers of a command, highest priority first. */
  function Layers(project: Project, reg: Registry, name: string): seq<Layer> {
    OverrideLayers(project, name) + InstalledLayers(project, reg, name) + LowerLayers(LowerFor(project, name))
  }

  /** The first preset in the order whose manifest lists the command. */
  function FirstListing(reg: Registry, ids: seq<string>, name: string): (r: Option<string>)
    requires forall id :: id in ids ==> id in reg
    ensures r.Some? ==> r.value in ids && Lists(reg[r.value].preset, name)
  {
    if ids == [] then None
    else if Lists(reg[ids[0]].preset, name) then Some(ids[0])
    else FirstListing(reg, ids[1..], name)
  }

  /** Where the top layer comes from. */
  function TopOrigin(project: Project, reg: Registry, name: string): Origin {
    if name in project.overrides then Override
    else if InstalledLayers(project, reg, name) != [] then FromPreset(InstalledLayers(project, reg, name)[0].source)
    else if LowerFor(project, name) != [] then Below(LowerFor(project, name)[0].provider)
    else Below(Core)
  }

  /** The source a command file is labelled with: the top layer's, or for a composition the first preset that lists it. */
  function OriginOf(project: Project, reg: Registry, name: string): Origin {
    var layers := Layers(project, reg, name);
    ListingHasAll(reg);
    if layers == [] || layers[0].strategy.Replace? then TopOrigin(project, reg, name)
    else match FirstListing(reg, Listing(reg), name) case Some(id) => FromPreset(id) case None => Below(Core)
  }

  /** A command file: whose rendering of which text. */
  datatype AgentFile = AgentFile(origin: Origin, text: string)

  /** The command file the current stack calls for. */
  function Desired(project: Project, reg: Registry, name: string): Option<AgentFile> {
    match Resolved(Command, project.yaml, Layers(project, reg, name))
    case Ok(Some(text)) => Some(AgentFile(OriginOf(project, reg, name), text))
    case _ => None
  }

  // ---- only the presets that list a command matter to it --------------------------------------

  function Concerning(reg: Registry, name: string): Registry {
    map id | id in reg && Lists(reg[id].preset, name) :: reg[id]
  }

  /** Same presets at the same priorities; what was registered for them does not matter. */
  ghost predicate SamePresets(a: Registry, b: Registry) {
    a.Keys == b.Keys && forall id :: id in a ==> a[id].priority == b[id].priority && a[id].preset == b[id].preset
  }

  lemma {:induction false} ListingOfSame(a: Registry, b: Registry)
    requires SamePresets(a, b)
    ensures Listing(a) == Listing(b)
    decreases |a|
  {
    if a == map[] {
      assert b.Keys == {} && b == map[];
    } else {
      assert b != map[] by { assert First(a) in b; }
      assert IsFirst(b, First(a)) by {
        forall other | other in b && other != First(a) ensures Before(b, First(a), other) { assert Before(a, First(a), other); }
      }
      FirstIsUnique(b, First(a), First(b));
      ListingOfSame(a - {First(a)}, b - {First(b)});
    }
  }

  lemma {:induction false} LayersOfSame(yaml: Yaml, a: Registry, b: Registry, ids: seq<string>, name: string)
    requires SamePresets(a, b) && forall id :: id in ids ==> id in a
    ensures PresetLayers(yaml, a, ids, name) == PresetLayers(yaml, b, ids, name)
    ensures FirstListing(a, ids, name) == FirstListing(b, ids, name)
  {
    if ids != [] {
      assert ids[0] in ids;
      LayersOfSame(yaml, a, b, ids[1..], name);
    }
  }

  /** Dropping the presets that do not list a command changes neither its layers nor its first lister. */
  lemma {:induction false} OnlyListersMatter(yaml: Yaml, reg: Registry, name: string)
    ensures (forall id :: id in Listing(reg) ==> id in reg) && (forall id :: id in Listing(Concerning(reg, name)) ==> id in Concerning(reg, name))
    ensures PresetLayers(yaml, reg, Listing(reg), name) == PresetLayers(yaml, Concerning(reg, name), Listing(Concerning(reg, name)), name)
    ensures FirstListing(reg, Listing(reg), name) == FirstListing(Concerning(reg, name), Listing(Concerning(reg, name)), name)
    decreases |reg|
  {
    ListingHasAll(reg);
    ListingHasAll(Concerning(reg, name));
    if reg != map[] {
      OnlyListersMatter(yaml, reg - {First(reg)}, name);
      RestOfListing(yaml, reg, name);
      FirstLister(reg, name);
      if Lists(reg[First(reg)].preset, name) {
        RestOfListing(yaml, Concerning(reg, name), name);
      }
    }
  }

  /** The first preset is the first lister, or no lister at all. */
  lemma FirstLister(reg: Registry, name: string)
    requires reg != map[]
    ensures var first, listers := First(reg), Concerning(reg, name);
            if Lists(reg[first].preset, name)
            then first in listers && First(listers) == first && Concerning(reg - {first}, name) == listers - {first}
            else Concerning(reg - {first}, name) == listers
  {
    var first, listers := First(reg), Concerning(reg, name);
    hide Lists;
    if !Lists(reg[first].preset, name) {
      assert Concerning(reg - {first}, name) == listers;
    } else {
      assert Concerning(reg - {first}, name) == listers - {first};
      assert IsFirst(listers, first) by {
        forall other | other in listers && other != first ensures Before(listers, first, other) { assert Before(reg, first, other); }
      }
      FirstIsUnique(listers, first, First(listers));
    }
  }

  /** One step down the listing. */
  lemma RestOfListing(yaml: Yaml, reg: Registry, name: string)
    requires reg != map[]
    ensures forall id :: id in Listing(reg) ==> id in reg
    ensures forall id :: id in Listing(reg - {First(reg)}) ==> id in reg - {First(reg)}
    ensures var rest := reg - {First(reg)};
            && PresetLayers(yaml, reg, Listing(reg), name)
               == (match LayerOf(yaml, reg[First(reg)].preset, name) case Some(layer) => [layer] case None => [])
                  + PresetLayers(yaml, rest, Listing(rest), name)
            && FirstListing(reg, Listing(reg), name)
               == if Lists(reg[First(reg)].preset, name) then Some(First(reg)) else FirstListing(rest, Listing(rest), name)
  {
    var rest := reg - {First(reg)};
    ListingHasAll(reg);
    ListingHasAll(rest);
    assert Listing(reg)[1..] == Listing(rest);
    LayersOfSub(yaml, rest, reg, Listing(rest), name);
  }

  lemma {:induction false} LayersOfSub(yaml: Yaml, sub: Registry, reg: Registry, ids: seq<string>, name: string)
    requires forall id :: id in sub ==> id in reg && sub[id] == reg[id]
    requires forall id :: id in ids ==> id in sub
    ensures PresetLayers(yaml, sub, ids, name) == PresetLayers(yaml, reg, ids, name)
    ensures FirstListing(sub, ids, name) == FirstListing(reg, ids, name)
  {
    if ids != [] {
      assert ids[0] in ids;
      LayersOfSub(yaml, sub, reg, ids[1..], name);
    }
  }

  lemma LayersDependOnListers(project: Project, a: Registry, b: Registry, name: string)
    requires SamePresets(Concerning(a, name), Concerning(b, name))
    ensures InstalledLayers(project, a, name) == InstalledLayers(project, b, name)
    ensures (forall id :: id in Listing(a) ==> id in a) && (forall id :: id in Listing(b) ==> id in b)
    ensures FirstListing(a, Listing(a), name) == FirstListing(b, Listing(b), name)
  {
    hide Concerning, PresetLayers, FirstListing, Listing;
    var ca, cb := Concerning(a, name), Concerning(b, name);
    OnlyListersMatter(project.yaml, a, name);
    OnlyListersMatter(project.yaml, b, name);
    ListingOfSame(ca, cb);
    LayersOfSame(project.yaml, ca, cb, Listing(ca), name);
  }

  /** The command file wanted depends only on the presets that list the command and their priorities. */
  lemma DesiredDependsOnListers(project: Project, a: Registry, b: Registry, name: string)
    requires SamePresets(Concerning(a, name), Concerning(b, name))
    ensures Layers(project, a, name) == Layers(project, b, name)
    ensures Desired(project, a, name) == Desired(project, b, name)
  {
    LayersDependOnListers(project, a, b, name);
    hide InstalledLayers, FirstListing, Listing, Resolved, SamePresets;
  }

  /** So two projects with the same presets installed want the same files, however they got there. */
  lemma DesiredOfSame(project: Project, a: Registry, b: Registry, name: string)
    requires SamePresets(a, b)
    ensures Desired(project, a, name) == Desired(project, b, name)
  {
    DesiredDependsOnListers(project, a, b, name);
  }

  // ---- a preset that lists a command without a layer for it -----------------------------------

  /** Taking such a preset out changes no layer, and the first lister only if that was it. */
  lemma {:induction false} SilentInListing(yaml: Yaml, reg: Registry, id: string, name: string)
    requires id in reg && LayerOf(yaml, reg[id].preset, name).None?
    ensures (forall i :: i in Listing(reg) ==> i in reg) && (forall i :: i in Listing(reg - {id}) ==> i in reg - {id})
    ensures PresetLayers(yaml, reg - {id}, Listing(reg - {id}), name) == PresetLayers(yaml, reg, Listing(reg), name)
    ensures var lister := FirstListing(reg, Listing(reg), name);
            lister == Some(id) || FirstListing(reg - {id}, Listing(reg - {id}), name) == lister
    decreases |reg|
  {
    hide LayerOf, Listing, PresetLayers, FirstListing, Lists;
    var first, rest := First(reg), reg - {id};
    ListingHasAll(reg);
    ListingHasAll(rest);
    RestOfListing(yaml, reg, name);
    if first != id {
      FirstWithout(reg, id);
      RestOfListing(yaml, rest, name);
      assert rest - {first} == (reg - {first}) - {id};
      SilentInListing(yaml, reg - {first}, id, name);
    }
  }

  lemma FirstWithout(reg: Registry, id: string)
    requires id in reg && First(reg) != id
    ensures reg - {id} != map[] && First(reg - {id}) == First(reg)
  {
    var first, rest := First(reg), reg - {id};
    assert first in rest;
    assert IsFirst(rest, first) by {
      forall other | other in rest && other != first ensures Before(rest, first, other) { assert Before(reg, first, other); }
    }
    FirstIsUnique(rest, first, First(rest));
  }

  /** So its removal can only change the label of a composition. */
  lemma SilentPreset(project: Project, reg: Registry, id: string, name: string)
    requires id in reg && LayerOf(project.yaml, reg[id].preset, name).None?
    ensures Layers(project, reg - {id}, name) == Layers(project, reg, name)
    ensures var wanted := Desired(project, reg, name);
            (wanted.Some? && wanted.value.origin == FromPreset(id)) || Desired(project, reg - {id}, name) == wanted
  {
    hide LayerOf, Listing, PresetLayers, FirstListing, Resolved, LowerFor, LowerLayers, OverrideLayers;
    SilentInListing(project.yaml, reg, id, name);
  }

  // ---- who is on top -------------------------------------------------------------------------

  /** A project's own override is what is wanted, whatever is installed. */
  lemma OverrideWins(project: Project, reg: Registry, name: string)
    requires name in project.overrides
    ensures Desired(project, reg, name) == Some(AgentFile(Override, project.overrides[name]))
  {
    hide InstalledLayers;
  }

  /** The first preset in the order that has a layer for the command. */
  ghost predicate Provides(project: Project, reg: Registry, name: string, id: string) {
    exists k :: 0 <= k < |Listing(reg)| && Listing(reg)[k] == id && id in reg && LayerOf(project.yaml, reg[id].preset, name).Some?
                && forall j :: 0 <= j < k ==> Listing(reg)[j] in reg && LayerOf(project.yaml, reg[Listing(reg)[j]].preset, name).None?
  }

  lemma {:induction false} TopOfLayers(yaml: Yaml, reg: Registry, ids: seq<string>, name: string)
    requires forall id :: id in ids ==> id in reg
    ensures var layers := PresetLayers(yaml, reg, ids, name);
            && (layers == [] <==> forall id :: id in ids ==> LayerOf(yaml, reg[id].preset, name).None?)
            && forall k :: 0 <= k < |ids| && LayerOf(yaml, reg[ids[k]].preset, name).Some?
                           && (forall j :: 0 <= j < k ==> LayerOf(yaml, reg[ids[j]].preset, name).None?) ==>
                 layers != [] && layers[0] == LayerOf(yaml, reg[ids[k]].preset, name).value
  {
    hide LayerOf;
    if ids != [] {
      var rest := ids[1..];
      assert ids == [ids[0]] + rest;
      TopOfLayers(yaml, reg, rest, name);
      forall k | 0 < k < |ids| && LayerOf(yaml, reg[ids[k]].preset, name).Some?
                 && (forall j :: 0 <= j < k ==> LayerOf(yaml, reg[ids[j]].preset, name).None?)
        ensures PresetLayers(yaml, reg, ids, name) != [] && PresetLayers(yaml, reg, ids, name)[0] == LayerOf(yaml, reg[ids[k]].preset, name).value
      {
        assert rest[k - 1] == ids[k];
        assert LayerOf(yaml, reg[ids[0]].preset, name).None?;
        forall j | 0 <= j < k - 1 ensures LayerOf(yaml, reg[rest[j]].preset, name).None? { assert rest[j] == ids[j + 1]; }
      }
    }
  }

  /** Without an override, the first preset with a layer is on top of the stack and the lower layers are beneath it. */
  lemma ProviderIsOnTop(project: Project, reg: Registry, name: string, id: string)
    requires name !in project.overrides && Provides(project, reg, name, id)
    ensures id in reg && LayerOf(project.yaml, reg[id].preset, name).Some?
    ensures var layers := Layers(project, reg, name);
            && layers != [] && layers[0] == LayerOf(project.yaml, reg[id].preset, name).value
            && TopOrigin(project, reg, name) == FromPreset(reg[id].preset.id)
    ensures LowerLayers(LowerFor(project, name)) == Layers(project, reg, name)[|InstalledLayers(project, reg, name)|..]
  {
    ListingHasAll(reg);
    TopOfLayers(project.yaml, reg, Listing(reg), name);
    hide Listing, PresetLayers, LowerLayers, EffectiveStrategy;
    assert OverrideLayers(project, name) == [];
    assert Layers(project, reg, name) == InstalledLayers(project, reg, name) + LowerLayers(LowerFor(project, name));
  }

  /** A replacing preset on top is what is wanted. */
  lemma ReplacingProviderWins(project: Project, reg: Registry, name: string, id: string)
    requires name !in project.overrides && Provides(project, reg, name, id)
    requires id in reg && LayerOf(project.yaml, reg[id].preset, name).Some? && LayerOf(project.yaml, reg[id].preset, name).value.strategy.Replace?
    ensures Desired(project, reg, name) == Some(AgentFile(FromPreset(reg[id].preset.id), LayerOf(project.yaml, reg[id].preset, name).value.text))
  {
    ProviderIsOnTop(project, reg, name, id);
    hide Layers, LayerOf, TopOrigin, Provides, Meaning;
  }

  lemma {:induction false} FirstListingIsFirst(reg: Registry, ids: seq<string>, name: string)
    requires forall id :: id in ids ==> id in reg
    ensures var r := FirstListing(reg, ids, name);
            if r.None? then forall id :: id in ids ==> !Lists(reg[id].preset, name)
            else exists k :: 0 <= k < |ids| && ids[k] == r.value && Lists(reg[ids[k]].preset, name)
                             && forall j :: 0 <= j < k ==> !Lists(reg[ids[j]].preset, name)
  {
    hide Lists;
    if ids != [] && !Lists(reg[ids[0]].preset, name) {
      var rest := ids[1..];
      assert ids == [ids[0]] + rest;
      FirstListingIsFirst(reg, rest, name);
      if FirstListing(reg, rest, name).Some? {
        var k :| 0 <= k < |rest| && rest[k] == FirstListing(reg, rest, name).value && Lists(reg[rest[k]].preset, name)
                 && forall j :: 0 <= j < k ==> !Lists(reg[rest[j]].preset, name);
        forall j | 0 <= j < k + 1 ensures !Lists(reg[ids[j]].preset, name) { if j > 0 { assert ids[j] == rest[j - 1]; } }
        assert ids[k + 1] == rest[k];
      }
    } else if ids != [] {
      assert ids[0] == FirstListing(reg, ids, name).value;
    }
  }

  /** A composing preset's result is labelled with the first preset that lists the command. */
  lemma ComposedIsLabelledByLister(project: Project, reg: Registry, name: string, id: string)
    requires Layers(project, reg, name) != [] && !Layers(project, reg, name)[0].strategy.Replace?
    requires id in reg && Lists(reg[id].preset, name)
    requires forall other :: other in reg && other != id && Lists(reg[other].preset, name) ==> Before(reg, id, other)
    ensures OriginOf(project, reg, name) == FromPreset(id)
  {
    ListingHasAll(reg);
    ListingInOrder(reg);
    hide Listing, Layers, Lists, Before, FirstListing;
    var ids := Listing(reg);
    FirstListingIsFirst(reg, ids, name);
    var r := FirstListing(reg, ids, name);
    if r != Some(id) {
      assert id in ids;
      var k :| 0 <= k < |ids| && ids[k] == r.value && Lists(reg[ids[k]].preset, name) && forall j :: 0 <= j < k ==> !Lists(reg[ids[j]].preset, name);
      var i :| 0 <= i < |ids| && ids[i] == id;
      assert k < i;
      assert Before(reg, ids[k], ids[i]) && Before(reg, id, ids[k]);
      NotBothBefore(reg, id, ids[k]);
    }
  }

  lemma NotBothBefore(reg: Registry, a: string, b: string)
    requires a in reg && b in reg
    ensures !(Before(reg, a, b) && Before(reg, b, a))
  {
    LessIsTotal(a, b);
  }

  /** Without overrides and presets the first provider below is wanted, or nothing. */
  lemma LowerWinsWithoutPresets(project: Project, reg: Registry, name: string)
    requires name !in project.overrides && forall id :: id in reg ==> LayerOf(project.yaml, reg[id].preset, name).None?
    ensures Desired(project, reg, name)
         == if LowerFor(project, name) == [] then None
            else Some(AgentFile(Below(LowerFor(project, name)[0].provider), LowerFor(project, name)[0].text))
  {
    ListingHasAll(reg);
    TopOfLayers(project.yaml, reg, Listing(reg), name);
    hide Listing, LayerOf, PresetLayers;
    assert InstalledLayers(project, reg, name) == [] && OverrideLayers(project, name) == [];
    assert Layers(project, reg, name) == LowerLayers(LowerFor(project, name));
  }

  // ---- the strategy of a layer ---------------------------------------------------------------

  /** How a strategy is written. */
  function Spelling(strategy: Strategy): string {
    match strategy case Replace => "replace" case Prepend => "prepend" case Append => "append" case Wrap => "wrap"
  }

  lemma StrategyNamedIff(word: string, strategy: Strategy)
    ensures StrategyNamed(word) == Some(strategy) <==> word == Spelling(strategy)
  {
    assert "replace"[0] == 'r' && "prepend"[0] == 'p' && "append"[0] == 'a' && "wrap"[0] == 'w';
  }

  /** The manifest's word counts. Without one the file's own metadata does, in any letter case; anything else replaces. */
  lemma StrategyOfPrinted(yaml: Yaml, declared: Option<Strategy>, dump: string, body: string, strategy: Strategy)
    requires Printed(dump) && PlainLines(dump)
    ensures var word := Lookup(yaml.parse(dump), "strategy");
            EffectiveStrategy(yaml, declared, Block(dump) + "\n\n" + body) == strategy <==>
            if declared.Some? then declared == Some(strategy)
            else if word.Some? && exists s :: LowerCase(word.value) == Spelling(s) then LowerCase(word.value) == Spelling(strategy)
            else strategy == Replace
  {
    SplitOfAttached(dump, body);
    FieldsOfPrinted(yaml, dump);
    var word := Lookup(yaml.parse(dump), "strategy");
    if word.Some? {
      forall s { StrategyNamedIff(LowerCase(word.value), s); }
    }
    hide Split, FieldsOf, Block, Lookup, LowerCase, StrategyNamed, Spelling;
  }

  lemma {:induction false} LowerCaseIgnoresCase(s: string)
    ensures |LowerCase(s)| == |s| && forall i :: 0 <= i < |s| ==> LowerCase(s)[i] == Lower(s[i]) && !('A' <= LowerCase(s)[i] <= 'Z')
  {
    if s != "" { LowerCaseIgnoresCase(s[1..]); }
  }
}

/** The preset manager as it runs: registry and command files changed in place, each method tied to its specification. */
module PresetInstaller {
  import opened Frontmatter
  import opened PresetComposition
  import opened PresetManager
  import opened PresetStack
  import opened Wrappers

  /** Walk overrides, presets by priority, extensions and core, and list the layers found. */
  method CollectAllLayers(project: Project, reg: Registry, name: string) returns (layers: seq<Layer>)
    ensures layers == Layers(project, reg, name)
  {
    layers := [];
    if name in project.overrides {
      layers := layers + [Layer("project override", Replace, project.overrides[name])];
    }
    assert layers == OverrideLayers(project, name);
    var installed := CollectInstalled(project.yaml, reg, name);
    var lower := CollectLower(LowerFor(project, name));
    return layers + installed + lower;
  }

  method CollectLower(provided: seq<Provided>) returns (layers: seq<Layer>)
    ensures layers == LowerLayers(provided)
  {
    layers := [];
    var i := 0;
    while i < |provided|
      invariant 0 <= i <= |provided|
      invariant LowerLayers(provided) == layers + LowerLayers(provided[i..])
    {
      assert provided[i..][1..] == provided[i + 1..];
      layers := layers + [Layer("", Replace, provided[i].text)];
      i := i + 1;
    }
  }

  method CollectInstalled(yaml: Yaml, reg: Registry, name: string) returns (layers: seq<Layer>)
    ensures layers == (ListingHasAll(reg); PresetLayers(yaml, reg, Listing(reg), name))
  {
    var ids := Listing(reg);
    ListingHasAll(reg);
    layers := CollectFrom(yaml, reg, ids, name);
  }

  method CollectFrom(yaml: Yaml, reg: Registry, ids: seq<string>, name: string) returns (layers: seq<Layer>)
    requires forall id :: id in ids ==> id in reg
    ensures layers == PresetLayers(yaml, reg, ids, name)
  {
    hide LayerOf, PresetLayers;
    layers := [];
    var i := 0;
    NoLayers(yaml, reg, ids, name);
    while i < |ids|
      invariant 0 <= i <= |ids|
      invariant PresetLayers(yaml, reg, ids, name) == layers + PresetLayers(yaml, reg, ids[i..], name)
    {
      NextLayer(yaml, reg, ids[i..], name);
      assert ids[i..][1..] == ids[i + 1..];
      var layer := LayerOf(yaml, reg[ids[i]].preset, name);
      if layer.Some? {
        layers := layers + [layer.value];
      }
      i := i + 1;
    }
  }

  lemma NoLayers(yaml: Yaml, reg: Registry, ids: seq<string>, name: string)
    requires forall id :: id in ids ==> id in reg
    ensures PresetLayers(yaml, reg, ids, name) == [] + PresetLayers(yaml, reg, ids[0..], name)
    ensures PresetLayers(yaml, reg, ids[|ids|..], name) == []
  {
    assert ids[0..] == ids && ids[|ids|..] == [];
  }

  lemma NextLayer(yaml: Yaml, reg: Registry, ids: seq<string>, name: string)
    requires ids != [] && forall id :: id in ids ==> id in reg
    ensures PresetLayers(yaml, reg, ids, name)
         == match LayerOf(yaml, reg[ids[0]].preset, name)
            case Some(layer) => [layer] + PresetLayers(yaml, reg, ids[1..], name)
            case None => PresetLayers(yaml, reg, ids[1..], name)
  {
    hide LayerOf;
  }

  /** Writes already collected, before what is still to come. */
  function After(writes: seq<Write>, rest: Result<seq<Write>, Error>): (r: Result<seq<Write>, Error>)
    ensures writes == [] ==> r == rest
    ensures rest == Ok([]) ==> r == Ok(writes)
  {
    match rest
    case Err(e) => Err(e)
    case Ok(more) => assert writes == [] ==> writes + more == more; assert more == [] ==> writes + more == writes; Ok(writes + more)
  }

  lemma AfterOneMore(writes: seq<Write>, w: Write, rest: Result<seq<Write>, Error>)
    ensures After(writes, After([w], rest)) == After(writes + [w], rest)
  {
    if rest.Ok? { assert writes + ([w] + rest.value) == writes + [w] + rest.value; }
  }

  lemma NextText(project: Project, reg: Registry, id: string, commands: seq<CommandTemplate>)
    requires commands != []
    ensures Registration(project, reg, id, commands)
         == match RegisteredText(project, reg, id, commands[0])
            case Err(e) => Err(e)
            case Ok(text) => After([Write(commands[0].name, text)], Registration(project, reg, id, commands[1..]))
  {
    hide RegisteredText;
  }

  lemma NothingWritten(files: Files, id: string, writes: seq<Write>)
    ensures Written(files, id, writes[0..]) == Written(files, id, writes) && WrittenOf(writes) == [] + WrittenOf(writes[0..])
    ensures WrittenOf(writes[|writes|..]) == [] && forall now :: Written(now, id, writes[|writes|..]) == now
  {
    assert writes[0..] == writes && writes[|writes|..] == [];
  }

  lemma NextWrite(files: Files, id: string, writes: seq<Write>, i: nat)
    requires i < |writes|
    ensures var w := writes[i];
            && Written(files, id, writes[i..])
               == Written(if w.text.None? then files else files[w.name := AgentFile(FromPreset(id), w.text.value)], id, writes[i + 1..])
            && WrittenOf(writes[i..]) == (if w.text.None? then [] else [w.name]) + WrittenOf(writes[i + 1..])
  {
    assert writes[i..][1..] == writes[i + 1..];
  }

  class Manager {
    const project: Project
    var registry: Registry
    var files: Files

    constructor (project: Project, files: Files)
      ensures this.project == project && View() == State(map[], files)
    {
      this.project, this.files := project, files;
      registry := map[];
    }

    function View(): State
      reads this
    {
      State(registry, files)
    }

    /** Compute every text first, so that a failure leaves no file behind; then write. */
    method RegisterCommands(preset: Preset) returns (r: Result<seq<string>, Error>)
      modifies this`files
      ensures match Registration(project, registry, preset.id, WrittenCommands(project, preset.commands))
              case Err(e) => r == Err(e) && files == old(files)
              case Ok(writes) => r == Ok(WrittenOf(writes)) && files == Written(old(files), preset.id, writes)
    {
      var writes := ComposeTexts(preset.id, WrittenCommands(project, preset.commands));
      if writes.Err? {
        return Err(writes.error);
      }
      var names := WriteFiles(preset.id, writes.value);
      return Ok(names);
    }

    method ComposeTexts(id: string, commands: seq<CommandTemplate>) returns (r: Result<seq<Write>, Error>)
      ensures r == Registration(project, registry, id, commands)
    {
      hide RegisteredText;
      var writes := [];
      var i := 0;
      assert commands[0..] == commands;
      while i < |commands|
        invariant 0 <= i <= |commands|
        invariant Registration(project, registry, id, commands) == After(writes, Registration(project, registry, id, commands[i..]))
      {
        var text := TextFor(id, commands[i]);
        NextText(project, registry, id, commands[i..]);
        assert commands[i..][1..] == commands[i + 1..];
        if text.Err? {
          return Err(text.error);
        }
        AfterOneMore(writes, Write(commands[i].name, text.value), Registration(project, registry, id, commands[i + 1..]));
        writes := writes + [Write(commands[i].name, text.value)];
        i := i + 1;
      }
      return Ok(writes);
    }

    method TextFor(id: string, t: CommandTemplate) returns (text: Result<Option<string>, Error>)
      ensures text == RegisteredText(project, registry, id, t)
    {
      if t.declared.None? || t.declared == Some(Replace) || TopOrigin(project, registry, t.name) != FromPreset(id) {
        return Ok(t.file);
      }
      var layers := CollectAllLayers(project, registry, t.name);
      var composed := ResolveContent(Command, project.yaml, layers);
      if composed.Err? {
        return Err(FaultyWrapper(composed.error.source));
      }
      if composed.value.None? {
        return Err(NoBase(t.name));
      }
      return Ok(composed.value);
    }

    method WriteFiles(id: string, writes: seq<Write>) returns (names: seq<string>)
      modifies this`files
      ensures files == Written(old(files), id, writes) && names == WrittenOf(writes)
    {
      hide Written, WrittenOf;
      names := [];
      var i := 0;
      NothingWritten(old(files), id, writes);
      while i < |writes|
        invariant 0 <= i <= |writes|
        invariant Written(files, id, writes[i..]) == Written(old(files), id, writes)
        invariant WrittenOf(writes) == names + WrittenOf(writes[i..])
      {
        NextWrite(files, id, writes, i);
        if writes[i].text.Some? {
          files := files[writes[i].name := AgentFile(FromPreset(id), writes[i].text.value)];
          names := names + [writes[i].name];
        }
        i := i + 1;
      }
    }

    method ReconcileComposedCommands(names: seq<string>) returns (failed: bool)
      modifies this`files
      ensures files == Reconcile(project, registry, old(files), names)
    {
      var i := 0;
      while i < |names|
        invariant 0 <= i <= |names|
        invariant Reconcile(project, registry, files, names[i..]) == Reconcile(project, registry, old(files), names)
      {
        hide Layers, Resolved, OriginOf;
        assert names[i..][1..] == names[i + 1..];
        failed := ReconcileCommand(names[i]);
        if failed {
          return;
        }
        i := i + 1;
      }
      return false;
    }

    /** Rewrite or remove one command's file from the stack as it is now. */
    method ReconcileCommand(name: string) returns (failed: bool)
      modifies this`files
      ensures match ReconcileOne(project, registry, old(files), name)
              case Err(_) => failed && files == old(files)
              case Ok(settled) => !failed && files == settled
    {
      var layers := CollectAllLayers(project, registry, name);
      if layers == [] {
        return false;
      }
      var origin := OriginOf(project, registry, name);
      hide Layers, Resolved, OriginOf;
      if layers[0].strategy.Replace? {
        ReplacingTop(project.yaml, layers);
        files := files[name := AgentFile(origin, layers[0].text)];
        return false;
      }
      var composed := ResolveContent(Command, project.yaml, layers);
      if composed.Err? {
        return true;
      }
      if composed.value.None? {
        files := files - {name};
      } else {
        files := files[name := AgentFile(origin, composed.value.value)];
      }
      return false;
    }

    method InstallFromDirectory(preset: Preset, priority: int, compatible: bool) returns (e: Option<Error>)
      modifies this
      ensures (View(), e) == Install(project, old(View()), preset, priority, compatible)
      ensures e.Some? ==> View() == old(View())
    {
      if priority < 1 {
        return Some(InvalidPriority);
      }
      if !compatible {
        return Some(Incompatible);
      }
      if preset.id in registry {
        return Some(AlreadyInstalled);
      }
      hide Registration, WrittenCommands, Written, WrittenOf, Reconcile;
      registry := registry[preset.id := Entry(priority, preset, [])];
      var registered := RegisterCommands(preset);
      if registered.Err? {
        registry := registry - {preset.id};
        assert registry == old(registry);
        return Some(registered.error);
      }
      registry := registry[preset.id := Entry(priority, preset, registered.value)];
      var failed := ReconcileComposedCommands(Names(WrittenCommands(project, preset.commands)));
      return None;
    }

    method RemovePreset(id: string) returns (removed: bool)
      modifies this
      ensures (View(), removed) == Remove(project, old(View()), id)
    {
      if id !in registry {
        return false;
      }
      var names := registry[id].registered;
      files := Unregistered(files, names);
      registry := registry - {id};
      hide Reconcile;
      var failed := ReconcileComposedCommands(names);
      return true;
    }
  }

  lemma ReplacingTop(yaml: Yaml, layers: seq<Layer>)
    requires layers != [] && layers[0].strategy.Replace?
    ensures Resolved(Command, yaml, layers) == Ok(Some(layers[0].text))
  {
  }
}

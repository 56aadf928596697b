/**
 Installing and removing presets. The command files in the agent's directory are a cache of the resolved
 contents; registration, unregistration and reconciliation keep it in step with the stack.
 */
module PresetManager {
  import opened Frontmatter
  import opened PresetComposition
  import opened PresetStack
  import opened Wrappers

  datatype Error = InvalidPriority | Incompatible | AlreadyInstalled | NoBase(name: string) | FaultyWrapper(source: string)

  type Files = map<string, AgentFile>

  datatype State = State(registry: Registry, files: Files)

  // ---- which commands are written at all -----------------------------------------------------

  /** The parts of a dotted name. */
  function DottedParts(name: string): (parts: seq<string>)
    ensures parts != []
  {
    if name == "" then [""]
    else
      var rest := DottedParts(name[1..]);
      if name[0] == '.' then [""] + rest else [[name[0]] + rest[0]] + rest[1..]
  }

  lemma {:induction false} PartBeforeDot(a: string, rest: string)
    requires '.' !in a
    ensures DottedParts(a + "." + rest) == [a] + DottedParts(rest)
  {
    var name := a + "." + rest;
    if a == "" {
      assert name[1..] == rest;
    } else {
      assert name[1..] == a[1..] + "." + rest && a[0] in a && '.' !in a[1..];
      PartBeforeDot(a[1..], rest);
      assert [a[0]] + a[1..] == a;
    }
  }

  lemma {:induction false} SinglePart(a: string)
    requires '.' !in a
    ensures DottedParts(a) == [a]
  {
    if a != "" {
      assert a[0] in a && '.' !in a[1..];
      SinglePart(a[1..]);
      assert [a[0]] + a[1..] == a;
    }
  }

  /** Commands of an extension that is not installed are passed over. */
  predicate Skipped(project: Project, name: string) {
    var parts := DottedParts(name);
    |parts| >= 3 && parts[0] == "speckit" && parts[1] !in project.extensions
  }

  /** Of the names of the tool's own form, exactly those of a missing extension are passed over, and no core command. */
  lemma SkippedIff(project: Project, extension: string, command: string)
    requires '.' !in extension
    ensures Skipped(project, "speckit." + extension + "." + command) <==> extension !in project.extensions
    ensures !Skipped(project, "speckit." + extension)
  {
    assert '.' !in "speckit";
    PartBeforeDot("speckit", extension + "." + command);
    PartBeforeDot(extension, command);
    PartBeforeDot("speckit", extension);
    SinglePart(extension);
    assert "speckit." + extension + "." + command == "speckit" + "." + (extension + "." + command);
    assert "speckit." + extension == "speckit" + "." + extension;
    hide DottedParts;
  }

  function WrittenCommands(project: Project, commands: seq<CommandTemplate>): seq<CommandTemplate> {
    if commands == [] then []
    else (if Skipped(project, commands[0].name) then [] else [commands[0]]) + WrittenCommands(project, commands[1..])
  }

  function Names(commands: seq<CommandTemplate>): (names: seq<string>)
    ensures |names| == |commands| && forall i :: 0 <= i < |names| ==> names[i] == commands[i].name
  {
    if commands == [] then [] else [commands[0].name] + Names(commands[1..])
  }

  lemma {:induction false} WrittenNames(project: Project, preset: Preset, name: string)
    ensures name in Names(WrittenCommands(project, preset.commands)) <==> Lists(preset, name) && !Skipped(project, name)
    decreases |preset.commands|
  {
    if preset.commands != [] {
      var first, rest := preset.commands[0], Preset(preset.id, preset.commands[1..]);
      WrittenNames(project, rest, name);
      hide Skipped;
      var names := Names(WrittenCommands(project, rest.commands));
      assert Names(WrittenCommands(project, preset.commands)) == (if Skipped(project, first.name) then [] else [first.name]) + names;
      assert Lists(preset, name) <==> first.name == name || Lists(rest, name);
    }
  }

  // ---- registration --------------------------------------------------------------------------

  /** What is written for a command when its preset is installed: its composition if the preset is on top, else its own file. */
  function RegisteredText(project: Project, reg: Registry, id: string, t: CommandTemplate): Result<Option<string>, Error> {
    if t.declared.None? || t.declared == Some(Replace) || TopOrigin(project, reg, t.name) != FromPreset(id) then Ok(t.file)
    else
      match Resolved(Command, project.yaml, Layers(project, reg, t.name))
      case Err(e) => Err(FaultyWrapper(e.source))
      case Ok(None) => Err(NoBase(t.name))
      case Ok(Some(text)) => Ok(Some(text))
  }

  datatype Write = Write(name: string, text: Option<string>)

  /** All texts are computed before any file is written. */
  function Registration(project: Project, reg: Registry, id: string, commands: seq<CommandTemplate>): Result<seq<Write>, Error> {
    if commands == [] then Ok([])
    else
      match RegisteredText(project, reg, id, commands[0])
      case Err(e) => Err(e)
      case Ok(text) =>
        match Registration(project, reg, id, commands[1..])
        case Err(e) => Err(e)
        case Ok(rest) => Ok([Write(commands[0].name, text)] + rest)
  }

  /** Files without a source are not written. */
  function Written(files: Files, id: string, writes: seq<Write>): Files
    decreases writes
  {
    if writes == [] then files
    else
      Written(if writes[0].text.None? then files else files[writes[0].name := AgentFile(FromPreset(id), writes[0].text.value)], id, writes[1..])
  }

  function WrittenOf(writes: seq<Write>): seq<string> {
    if writes == [] then [] else (if writes[0].text.None? then [] else [writes[0].name]) + WrittenOf(writes[1..])
  }

  // ---- reconciliation ------------------------------------------------------------------------

  /** One command's file, recomputed from the stack. Without any layer nothing is done. */
  function ReconcileOne(project: Project, reg: Registry, files: Files, name: string): Result<Files, MissingPlaceholder> {
    var layers := Layers(project, reg, name);
    if layers == [] then Ok(files)
    else
      match Resolved(Command, project.yaml, layers)
      case Err(e) => Err(e)
      case Ok(None) => Ok(files - {name})
      case Ok(Some(text)) => Ok(files[name := AgentFile(OriginOf(project, reg, name), text)])
  }

  /** A failure ends the pass; what was written stays, and the caller only warns. */
  function Reconcile(project: Project, reg: Registry, files: Files, names: seq<string>): Files
    decreases names
  {
    if names == [] then files
    else
      match ReconcileOne(project, reg, files, names[0])
      case Err(_) => files
      case Ok(files') => Reconcile(project, reg, files', names[1..])
  }

  // ---- install and remove --------------------------------------------------------------------

  function Install(project: Project, s: State, preset: Preset, priority: int, compatible: bool): (State, Option<Error>) {
    if priority < 1 then (s, Some(InvalidPriority))
    else if !compatible then (s, Some(Incompatible))
    else if preset.id in s.registry then (s, Some(AlreadyInstalled))
    else
      var reg := s.registry[preset.id := Entry(priority, preset, [])];
      var commands := WrittenCommands(project, preset.commands);
      match Registration(project, reg, preset.id, commands)
      case Err(e) => (s, Some(e))
      case Ok(writes) =>
        var reg' := reg[preset.id := Entry(priority, preset, WrittenOf(writes))];
        (State(reg', Reconcile(project, reg', Written(s.files, preset.id, writes), Names(commands))), None)
  }

  function Unregistered(files: Files, names: seq<string>): Files {
    map n | n in files && n !in names :: files[n]
  }

  function Remove(project: Project, s: State, id: string): (State, bool) {
    if id !in s.registry then (s, false)
    else
      var names, reg := s.registry[id].registered, s.registry - {id};
      (State(reg, Reconcile(project, reg, Unregistered(s.files, names), names)), true)
  }

  datatype Op = Add(preset: Preset, priority: int, compatible: bool) | Drop(id: string)

  function Step(project: Project, s: State, op: Op): State {
    match op
    case Add(preset, priority, compatible) => Install(project, s, preset, priority, compatible).0
    case Drop(id) => Remove(project, s, id).0
  }

  function Run(project: Project, s: State, ops: seq<Op>): State
    decreases |ops|
  {
    if ops == [] then s else Run(project, Step(project, s, ops[0]), ops[1..])
  }

  // ---- what is kept --------------------------------------------------------------------------

  /** The preset comes with a file for the command. */
  predicate Ships(preset: Preset, name: string) {
    exists t :: t in preset.commands && t.name == name && t.file.Some?
  }

  /** Every wrapper has its placeholder. */
  ghost predicate Sound(project: Project, preset: Preset) {
    forall t :: t in preset.commands && t.file.Some? ==>
      !Faulty(Command, Layer(preset.id, EffectiveStrategy(project.yaml, t.declared, t.file.value), t.file.value))
  }

  /** Presets are kept under their own ids. */
  ghost predicate OwnIds(reg: Registry) {
    forall id :: id in reg ==> reg[id].preset.id == id
  }

  ghost predicate Valid(project: Project, s: State) {
    && OwnIds(s.registry)
    && forall id :: id in s.registry ==>
         && Sound(project, s.registry[id].preset)
         && forall n :: n in s.registry[id].registered <==> Ships(s.registry[id].preset, n) && !Skipped(project, n)
  }

  function FileOf(files: Files, name: string): Option<AgentFile> {
    if name in files then Some(files[name]) else None
  }

  /** The command file is exactly the one the stack calls for. */
  ghost predicate InSync(project: Project, s: State, name: string) {
    FileOf(s.files, name) == Desired(project, s.registry, name)
  }

  // ---- where a pass stops --------------------------------------------------------------------

  /** A wrapper above the nearest replacing layer lacks its placeholder. */
  predicate Blocked(layers: seq<Layer>) {
    Nearest(layers) < |layers| && exists i :: 0 <= i < Nearest(layers) && Faulty(Command, layers[i])
  }

  lemma BlockedIff(yaml: Yaml, layers: seq<Layer>)
    ensures Resolved(Command, yaml, layers).Err? <==> Blocked(layers)
  {
    DefinedIffReplaced(Command, layers);
    hide Faulty, Attach, CommandFields;
    if Nearest(layers) < |layers| {
      if Meaning(Command, layers).Err? {
        var i := LowestFault(Command, layers);
      }
      if Blocked(layers) {
        var i :| 0 <= i < Nearest(layers) && Faulty(Command, layers[i]);
        FaultFails(Command, layers, i);
      }
    }
  }

  /** A pass over the names comes to the command: neither it nor any name before it is blocked. */
  predicate Reached(project: Project, reg: Registry, names: seq<string>, name: string)
    ensures Reached(project, reg, names, name) ==> name in names
    decreases names
  {
    names != [] && !Blocked(Layers(project, reg, names[0])) && (names[0] == name || Reached(project, reg, names[1..], name))
  }

  /** A pass settles exactly the names it reaches, and of those leaves the ones without layers alone. */
  lemma {:induction false} ReconcileSettles(project: Project, reg: Registry, files: Files, names: seq<string>, name: string)
    ensures FileOf(Reconcile(project, reg, files, names), name)
         == if Reached(project, reg, names, name) && Layers(project, reg, name) != [] then Desired(project, reg, name) else FileOf(files, name)
    decreases names
  {
    hide Layers, OriginOf, Resolved, Blocked;
    if names != [] {
      BlockedIff(project.yaml, Layers(project, reg, names[0]));
      if !Blocked(Layers(project, reg, names[0])) {
        assert ReconcileOne(project, reg, files, names[0]).Ok? by { NoLayersNoFault(project.yaml); }
        ReconcileSettles(project, reg, ReconcileOne(project, reg, files, names[0]).value, names[1..], name);
      } else {
        NoLayersNoFault(project.yaml);
      }
    }
  }

  lemma NoLayersNoFault(yaml: Yaml)
    ensures !Blocked([])
  {
  }

  // ---- sound presets never fail --------------------------------------------------------------

  ghost predicate SoundRegistry(project: Project, reg: Registry) {
    forall id :: id in reg ==> reg[id].preset.id == id && Sound(project, reg[id].preset)
  }

  lemma {:induction false} SoundLayers(project: Project, reg: Registry, ids: seq<string>, name: string)
    requires SoundRegistry(project, reg) && forall id :: id in ids ==> id in reg
    ensures forall l :: l in PresetLayers(project.yaml, reg, ids, name) ==> !Faulty(Command, l)
  {
    hide Faulty, EffectiveStrategy;
    if ids != [] {
      assert ids[0] in ids;
      SoundLayers(project, reg, ids[1..], name);
    }
  }

  lemma {:induction false} LowerLayersReplace(provided: seq<Provided>)
    ensures |LowerLayers(provided)| == |provided| && forall l :: l in LowerLayers(provided) ==> l.strategy.Replace?
  {
    if provided != [] { LowerLayersReplace(provided[1..]); }
  }

  lemma SoundIsUnblocked(project: Project, reg: Registry, name: string)
    requires SoundRegistry(project, reg)
    ensures !Blocked(Layers(project, reg, name))
  {
    var layers := Layers(project, reg, name);
    ListingHasAll(reg);
    SoundLayers(project, reg, Listing(reg), name);
    LowerLayersReplace(LowerFor(project, name));
    forall i | 0 <= i < |layers| ensures !Faulty(Command, layers[i]) {
      assert layers[i] in layers;
    }
  }

  /** So a pass over a sound registry reaches every name. */
  lemma {:induction false} SoundReachesAll(project: Project, reg: Registry, names: seq<string>, name: string)
    requires SoundRegistry(project, reg)
    ensures Reached(project, reg, names, name) <==> name in names
    decreases names
  {
    hide SoundRegistry, Blocked, Layers;
    if names != [] {
      SoundIsUnblocked(project, reg, names[0]);
      SoundReachesAll(project, reg, names[1..], name);
    }
  }

  lemma DesiredWithoutLayers(project: Project, reg: Registry, name: string)
    requires Layers(project, reg, name) == []
    ensures Desired(project, reg, name) == None
  {
  }

  /** The names written, and no others, have a new file. */
  lemma {:induction false} WrittenFile(files: Files, id: string, writes: seq<Write>, name: string)
    ensures if name in WrittenOf(writes) then FileOf(Written(files, id, writes), name).Some?
            else FileOf(Written(files, id, writes), name) == FileOf(files, name)
    decreases writes
  {
    if writes != [] {
      WrittenFile(if writes[0].text.None? then files else files[writes[0].name := AgentFile(FromPreset(id), writes[0].text.value)],
                  id, writes[1..], name);
    }
  }

  lemma {:induction false} WrittenAreListed(project: Project, commands: seq<CommandTemplate>)
    ensures forall t :: t in WrittenCommands(project, commands) <==> t in commands && !Skipped(project, t.name)
  {
    hide Skipped;
    if commands != [] {
      WrittenAreListed(project, commands[1..]);
      assert forall t :: t in commands <==> t == commands[0] || t in commands[1..];
    }
  }

  /** A text is written where the command's file is, or where another file of the preset is on top of the stack. */
  lemma TextIsShipped(project: Project, reg: Registry, id: string, t: CommandTemplate)
    requires OwnIds(reg) && id in reg && RegisteredText(project, reg, id, t).Ok?
    ensures t.file.Some? ==> RegisteredText(project, reg, id, t).value.Some?
    ensures RegisteredText(project, reg, id, t).value.Some? ==> t.file.Some? || LayerOf(project.yaml, reg[id].preset, t.name).Some?
  {
    ListingHasAll(reg);
    FirstLayerIsInstalled(project.yaml, reg, Listing(reg), t.name);
    hide Layers, Resolved, LayerOf, PresetLayers;
  }

  lemma {:induction false} RegisteredIsShipped(project: Project, reg: Registry, id: string, commands: seq<CommandTemplate>, name: string)
    requires OwnIds(reg) && id in reg && Registration(project, reg, id, commands).Ok?
    ensures var names := WrittenOf(Registration(project, reg, id, commands).value);
            && ((exists t :: t in commands && t.name == name && t.file.Some?) ==> name in names)
            && (name in names ==> exists t :: t in commands && t.name == name && (t.file.Some? || LayerOf(project.yaml, reg[id].preset, name).Some?))
  {
    hide RegisteredText, LayerOf, OwnIds;
    if commands != [] {
      TextIsShipped(project, reg, id, commands[0]);
      RegisteredIsShipped(project, reg, id, commands[1..], name);
      var writes := Registration(project, reg, id, commands).value;
      assert writes[0].name == commands[0].name && writes[1..] == Registration(project, reg, id, commands[1..]).value;
      assert commands[0] in commands && forall t :: t in commands <==> t == commands[0] || t in commands[1..];
    }
  }

  /** A preset that does not list a command does not change its stack. */
  lemma UnlistedIsIrrelevant(project: Project, reg: Registry, entry: Entry, name: string)
    requires entry.preset.id !in reg && !Lists(entry.preset, name)
    ensures Desired(project, reg[entry.preset.id := entry], name) == Desired(project, reg, name)
  {
    hide Lists, Desired, Layers;
    assert Concerning(reg[entry.preset.id := entry], name) == Concerning(reg, name);
    DesiredDependsOnListers(project, reg[entry.preset.id := entry], reg, name);
  }

  /** Which commands a new preset leaves without layers. */
  lemma LayersAfterAdding(project: Project, reg: Registry, id: string, name: string)
    requires id in reg
    ensures Layers(project, reg, name) == [] <==> LayerOf(project.yaml, reg[id].preset, name).None? && Layers(project, reg - {id}, name) == []
  {
    hide LayerOf;
    if LayerOf(project.yaml, reg[id].preset, name).None? {
      hide Layers, Desired;
      SilentPreset(project, reg, id, name);
    } else {
      ListingHasAll(reg);
      LayerInPlace(project.yaml, reg, Listing(reg), id, name);
    }
  }

  lemma {:induction false} LayerInPlace(yaml: Yaml, reg: Registry, ids: seq<string>, id: string, name: string)
    requires id in ids && (forall i :: i in ids ==> i in reg) && LayerOf(yaml, reg[id].preset, name).Some?
    ensures PresetLayers(yaml, reg, ids, name) != []
  {
    hide LayerOf;
    if ids[0] != id { LayerInPlace(yaml, reg, ids[1..], id, name); }
  }

  /** The entry an install leaves behind. */
  lemma InstalledEntry(project: Project, s: State, preset: Preset, priority: int, compatible: bool)
    requires OwnIds(s.registry) && Install(project, s, preset, priority, compatible).1.None?
    ensures var reg := Install(project, s, preset, priority, compatible).0.registry;
            && preset.id in reg && reg == s.registry[preset.id := Entry(priority, preset, reg[preset.id].registered)]
            && forall n :: n in reg[preset.id].registered <==> Ships(preset, n) && !Skipped(project, n)
  {
    WrittenAreListed(project, preset.commands);
    var reg, commands := s.registry[preset.id := Entry(priority, preset, [])], WrittenCommands(project, preset.commands);
    hide WrittenCommands, Reconcile, Registration, Written, WrittenOf, Skipped;
    forall n ensures n in WrittenOf(Registration(project, reg, preset.id, commands).value) <==> Ships(preset, n) && !Skipped(project, n) {
      RegisteredIsShipped(project, reg, preset.id, commands, n);
    }
  }

  /** A failed install changes nothing. */
  lemma FailedInstallChangesNothing(project: Project, s: State, preset: Preset, priority: int, compatible: bool)
    requires Install(project, s, preset, priority, compatible).1.Some?
    ensures Install(project, s, preset, priority, compatible).0 == s
  {
  }

  /** Why a command with a declared composing strategy, on top of its stack, cannot be written: no layer replaces, or a wrapper is faulty. */
  ghost predicate Refusal(project: Project, reg: Registry, id: string, t: CommandTemplate, e: Error) {
    var layers := Layers(project, reg, t.name);
    && t.declared.Some? && t.declared != Some(Replace) && TopOrigin(project, reg, t.name) == FromPreset(id)
    && match e
       case NoBase(name) => name == t.name && Nearest(layers) == |layers|
       case FaultyWrapper(source) =>
         && Nearest(layers) < |layers|
         && exists i :: 0 <= i < Nearest(layers) && Faulty(Command, layers[i]) && source == layers[i].source
                        && forall j :: i < j < Nearest(layers) ==> !Faulty(Command, layers[j])
       case _ => false
  }

  ghost predicate Refused(project: Project, reg: Registry, id: string, t: CommandTemplate) {
    var layers := Layers(project, reg, t.name);
    && t.declared.Some? && t.declared != Some(Replace) && TopOrigin(project, reg, t.name) == FromPreset(id)
    && (Nearest(layers) == |layers| || Blocked(layers))
  }

  /** A preset is refused for its priority, its compatibility, its being there already, or the first command that cannot be composed. */
  lemma InstallFailsIff(project: Project, s: State, preset: Preset, priority: int, compatible: bool, e: Error)
    ensures Install(project, s, preset, priority, compatible).1 == Some(e) <==>
            if priority < 1 then e == InvalidPriority
            else if !compatible then e == Incompatible
            else if preset.id in s.registry then e == AlreadyInstalled
            else
              var reg, commands := s.registry[preset.id := Entry(priority, preset, [])], WrittenCommands(project, preset.commands);
              exists k :: 0 <= k < |commands| && Refusal(project, reg, preset.id, commands[k], e)
                          && forall j :: 0 <= j < k ==> !Refused(project, reg, preset.id, commands[j])
  {
    if priority >= 1 && compatible && preset.id !in s.registry {
      hide WrittenCommands, Reconcile, Written, WrittenOf, Registration, Refusal, Refused;
      var reg, commands := s.registry[preset.id := Entry(priority, preset, [])], WrittenCommands(project, preset.commands);
      RegistrationFailsIff(project, reg, preset.id, commands, e);
      assert Install(project, s, preset, priority, compatible).1
          == match Registration(project, reg, preset.id, commands) case Err(error) => Some(error) case Ok(_) => None;
    }
  }

  lemma {:induction false} RegistrationFailsIff(project: Project, reg: Registry, id: string, commands: seq<CommandTemplate>, e: Error)
    ensures Registration(project, reg, id, commands) == Err(e) <==>
            exists k :: 0 <= k < |commands| && Refusal(project, reg, id, commands[k], e)
                        && forall j :: 0 <= j < k ==> !Refused(project, reg, id, commands[j])
  {
    hide Refusal, Refused, RegisteredText;
    if commands != [] {
      var rest := commands[1..];
      TextFailsIff(project, reg, id, commands[0], e);
      RegistrationFailsIff(project, reg, id, rest, e);
      if Registration(project, reg, id, rest) == Err(e) && !Refused(project, reg, id, commands[0]) {
        var k :| 0 <= k < |rest| && Refusal(project, reg, id, rest[k], e) && forall j :: 0 <= j < k ==> !Refused(project, reg, id, rest[j]);
        forall j | 0 <= j < k + 1 ensures !Refused(project, reg, id, commands[j]) { if j > 0 { assert commands[j] == rest[j - 1]; } }
        assert commands[k + 1] == rest[k];
      }
      if k :| 0 <= k < |commands| && Refusal(project, reg, id, commands[k], e) && forall j :: 0 <= j < k ==> !Refused(project, reg, id, commands[j]) {
        if k > 0 {
          assert rest[k - 1] == commands[k];
          forall j | 0 <= j < k - 1 ensures !Refused(project, reg, id, rest[j]) { assert rest[j] == commands[j + 1]; }
        }
      }
    }
  }

  lemma TextFailsIff(project: Project, reg: Registry, id: string, t: CommandTemplate, e: Error)
    ensures RegisteredText(project, reg, id, t) == Err(e) <==> Refusal(project, reg, id, t, e)
    ensures RegisteredText(project, reg, id, t).Err? <==> Refused(project, reg, id, t)
  {
    hide Layers, TopOrigin;
    var layers := Layers(project, reg, t.name);
    DefinedIffReplaced(Command, layers);
    ResolvedIffMeaning(project.yaml, layers);
    BlockedIff(project.yaml, layers);
    hide Resolved, Meaning, Faulty;
    if Resolved(Command, project.yaml, layers).Err? {
      FaultNamesWrapper(project.yaml, layers, e);
    }
  }

  lemma FaultNamesWrapper(yaml: Yaml, layers: seq<Layer>, e: Error)
    requires Resolved(Command, yaml, layers).Err?
    ensures Nearest(layers) < |layers|
    ensures e == FaultyWrapper(Resolved(Command, yaml, layers).error.source) <==>
            e.FaultyWrapper? && exists i :: 0 <= i < Nearest(layers) && Faulty(Command, layers[i]) && e.source == layers[i].source
                                            && forall j :: i < j < Nearest(layers) ==> !Faulty(Command, layers[j])
  {
    DefinedIffReplaced(Command, layers);
    hide Faulty;
    var i := LowestFault(Command, layers);
  }

  lemma ResolvedIffMeaning(yaml: Yaml, layers: seq<Layer>)
    ensures Resolved(Command, yaml, layers) == Ok(None) <==> Meaning(Command, layers) == Ok(None)
  {
  }

  lemma InstallKeepsValid(project: Project, s: State, preset: Preset, priority: int, compatible: bool)
    requires Valid(project, s) && Sound(project, preset)
    ensures Valid(project, Install(project, s, preset, priority, compatible).0)
  {
    hide Install, Sound, Ships, Skipped;
    if Install(project, s, preset, priority, compatible).1.None? {
      InstalledEntry(project, s, preset, priority, compatible);
    } else {
      FailedInstallChangesNothing(project, s, preset, priority, compatible);
    }
  }

  /** A shipped command is a listed one. */
  lemma ShippedIsListed(preset: Preset, name: string)
    ensures Ships(preset, name) ==> Lists(preset, name)
    ensures forall yaml: Yaml :: LayerOf(yaml, preset, name).Some? ==> Ships(preset, name)
  {
    hide EffectiveStrategy;
  }

  /**
   Where an install succeeds, it brings the listed commands that have a layer into step and touches no others. A listed
   command without any layer is only written, if a second entry of the manifest ships a file for it.
   */
  lemma InstallSettles(project: Project, s: State, preset: Preset, priority: int, compatible: bool, name: string)
    requires Valid(project, s) && Sound(project, preset) && Install(project, s, preset, priority, compatible).1.None?
    ensures var s' := Install(project, s, preset, priority, compatible).0;
            if Lists(preset, name) && !Skipped(project, name) then
              if LayerOf(project.yaml, preset, name).Some? || Layers(project, s.registry, name) != [] then InSync(project, s', name)
              else
                && Desired(project, s.registry, name).None? && Desired(project, s'.registry, name).None?
                && (Ships(preset, name) ==> FileOf(s'.files, name).Some?)
                && (!Ships(preset, name) ==> FileOf(s'.files, name) == FileOf(s.files, name))
            else
              && FileOf(s'.files, name) == FileOf(s.files, name)
              && (!Lists(preset, name) ==> Desired(project, s'.registry, name) == Desired(project, s.registry, name))
  {
    var s' := Install(project, s, preset, priority, compatible).0;
    var commands := WrittenCommands(project, preset.commands);
    var writes := Registration(project, s.registry[preset.id := Entry(priority, preset, [])], preset.id, commands).value;
    InstalledEntry(project, s, preset, priority, compatible);
    WrittenNames(project, preset, name);
    InstallKeepsValid(project, s, preset, priority, compatible);
    WrittenFile(s.files, preset.id, writes, name);
    ShippedIsListed(preset, name);
    hide WrittenCommands, Registration, Reconcile, Skipped, Desired, Layers, Lists, Sound, Ships, LayerOf;
    assert name in WrittenOf(writes) <==> Ships(preset, name) && !Skipped(project, name);
    ReconcileSettles(project, s'.registry, Written(s.files, preset.id, writes), Names(commands), name);
    SoundReachesAll(project, s'.registry, Names(commands), name);
    assert s'.registry - {preset.id} == s.registry;
    LayersAfterAdding(project, s'.registry, preset.id, name);
    if Layers(project, s'.registry, name) == [] {
      DesiredWithoutLayers(project, s'.registry, name);
      DesiredWithoutLayers(project, s.registry, name);
    }
    if !Lists(preset, name) {
      UnlistedIsIrrelevant(project, s.registry, s'.registry[preset.id], name);
    }
  }

  lemma RemoveKeepsValid(project: Project, s: State, id: string)
    requires Valid(project, s)
    ensures Valid(project, Remove(project, s, id).0)
  {
    hide Reconcile, Sound, Ships, Skipped;
  }

  /** Removal settles the commands the preset was written for and touches no others. */
  lemma RemoveSettles(project: Project, s: State, id: string, name: string)
    requires Valid(project, s) && id in s.registry
    ensures var s' := Remove(project, s, id).0;
            if Ships(s.registry[id].preset, name) && !Skipped(project, name) then InSync(project, s', name)
            else
              && FileOf(s'.files, name) == FileOf(s.files, name)
              && (!Lists(s.registry[id].preset, name) ==> Desired(project, s'.registry, name) == Desired(project, s.registry, name))
  {
    var s', names := Remove(project, s, id).0, s.registry[id].registered;
    hide Reconcile, Skipped, Desired, Layers, Lists, Sound, Ships;
    ReconcileSettles(project, s'.registry, Unregistered(s.files, names), names, name);
    SoundReachesAll(project, s'.registry, names, name);
    if name in names {
      if Layers(project, s'.registry, name) == [] { DesiredWithoutLayers(project, s'.registry, name); }
    }
    if !Lists(s.registry[id].preset, name) {
      assert s.registry == s'.registry[id := s.registry[id]];
      UnlistedIsIrrelevant(project, s'.registry, s.registry[id], name);
    }
  }

  /**
   Removing a preset that was not written for a command and gave it no layer leaves its file in step exactly when the
   file is not labelled with that preset.
   */
  lemma RemovalKeepsStepIff(project: Project, s: State, id: string, name: string)
    requires OwnIds(s.registry) && id in s.registry && InSync(project, s, name)
    requires name !in s.registry[id].registered && LayerOf(project.yaml, s.registry[id].preset, name).None?
    ensures var s' := Remove(project, s, id).0;
            && FileOf(s'.files, name) == FileOf(s.files, name)
            && (InSync(project, s', name) <==> !(name in s.files && s.files[name].origin == FromPreset(id)))
  {
    hide Desired, Reconcile, Layers, LayerOf;
    ReconcileSettles(project, s.registry - {id}, Unregistered(s.files, s.registry[id].registered), s.registry[id].registered, name);
    SilentPreset(project, s.registry, id, name);
    if name in s.files && s.files[name].origin == FromPreset(id) {
      MissingFileLeavesStaleLabel(project, s, id, name);
    }
  }

  // ---- runs ----------------------------------------------------------------------------------

  /** Whether a step rewrites or removes this command's file from the stack. */
  predicate StepSettles(project: Project, s: State, op: Op, name: string) {
    !Skipped(project, name) &&
    match op
    case Add(preset, priority, compatible) =>
      && Lists(preset, name) && Install(project, s, preset, priority, compatible).1.None?
      && (LayerOf(project.yaml, preset, name).Some? || Layers(project, s.registry, name) != [])
    case Drop(id) => id in s.registry && Ships(s.registry[id].preset, name)
  }

  /**
   Whether a step leaves it out of step: the removal of a preset that came without the command's file yet lent its
   name to the composition, or a manifest that names the command twice and ships only its second file where the
   command has no layer.
   */
  predicate StepStales(project: Project, s: State, op: Op, name: string) {
    !Skipped(project, name) &&
    match op
    case Add(preset, priority, compatible) =>
      && Ships(preset, name) && Install(project, s, preset, priority, compatible).1.None?
      && LayerOf(project.yaml, preset, name).None? && Layers(project, s.registry, name) == []
    case Drop(id) =>
      id in s.registry && !Ships(s.registry[id].preset, name) && name in s.files && s.files[name].origin == FromPreset(id)
  }

  lemma StepKeepsSync(project: Project, s: State, op: Op, name: string)
    requires Valid(project, s) && (op.Add? ==> Sound(project, op.preset))
    ensures Valid(project, Step(project, s, op))
    ensures StepSettles(project, s, op, name) ==> InSync(project, Step(project, s, op), name)
    ensures !StepSettles(project, s, op, name) && !StepStales(project, s, op, name) ==>
              FileOf(Step(project, s, op).files, name) == FileOf(s.files, name)
    ensures InSync(project, s, name) && !Skipped(project, name) ==>
              (InSync(project, Step(project, s, op), name) <==> !StepStales(project, s, op, name))
  {
    hide Install, Remove, Skipped, Desired, Lists, Sound, Ships, Layers, LayerOf;
    match op {
      case Add(preset, priority, compatible) =>
        InstallKeepsValid(project, s, preset, priority, compatible);
        ShippedIsListed(preset, name);
        if Install(project, s, preset, priority, compatible).1.None? {
          InstallSettles(project, s, preset, priority, compatible, name);
        } else {
          FailedInstallChangesNothing(project, s, preset, priority, compatible);
        }
      case Drop(id) =>
        RemoveKeepsValid(project, s, id);
        if id in s.registry {
          RemoveSettles(project, s, id, name);
          ShippedIsListed(s.registry[id].preset, name);
          if !Ships(s.registry[id].preset, name) && InSync(project, s, name) { RemovalKeepsStepIff(project, s, id, name); }
        } else {
          RemoveUnknown(project, s, id);
        }
    }
  }

  lemma RemoveUnknown(project: Project, s: State, id: string)
    requires id !in s.registry
    ensures Remove(project, s, id) == (s, false)
  {
  }

  ghost predicate SoundOps(project: Project, ops: seq<Op>) {
    forall op :: op in ops && op.Add? ==> Sound(project, op.preset)
  }

  predicate RunTouches(project: Project, s: State, ops: seq<Op>, name: string)
    decreases |ops|
  {
    ops != [] &&
    (StepSettles(project, s, ops[0], name) || StepStales(project, s, ops[0], name) || RunTouches(project, Step(project, s, ops[0]), ops[1..], name))
  }

  /** Whether the command is known to be in step after a run: it was before or was settled, and went stale at no later step. */
  predicate KeptInStep(project: Project, s: State, ops: seq<Op>, name: string, before: bool)
    decreases |ops|
  {
    if ops == [] then before
    else
      KeptInStep(project, Step(project, s, ops[0]), ops[1..], name,
                 StepSettles(project, s, ops[0], name) || (before && !StepStales(project, s, ops[0], name)))
  }

  /**
   After any run of installs and removals every command file a step settled, and every one that was in step
   before, is what the current stack calls for, unless a later step staled it; all other files are as they were.
   */
  lemma {:induction false} RunKeepsSync(project: Project, s: State, ops: seq<Op>, name: string, before: bool)
    requires Valid(project, s) && SoundOps(project, ops) && !Skipped(project, name)
    requires before ==> InSync(project, s, name)
    ensures Valid(project, Run(project, s, ops))
    ensures KeptInStep(project, s, ops, name, before) ==> InSync(project, Run(project, s, ops), name)
    ensures !RunTouches(project, s, ops, name) ==> FileOf(Run(project, s, ops).files, name) == FileOf(s.files, name)
    decreases |ops|
  {
    hide Valid, Step, InSync, StepSettles, StepStales, Skipped, Sound;
    if ops != [] {
      assert ops[0] in ops;
      StepKeepsSync(project, s, ops[0], name);
      RunKeepsSync(project, Step(project, s, ops[0]), ops[1..], name,
                   StepSettles(project, s, ops[0], name) || (before && !StepStales(project, s, ops[0], name)));
    }
  }

  ghost predicate InStepThroughout(project: Project, s: State, ops: seq<Op>, name: string)
    decreases |ops|
  {
    InSync(project, s, name) && (ops != [] ==> InStepThroughout(project, Step(project, s, ops[0]), ops[1..], name))
  }

  predicate NoStaleStep(project: Project, s: State, ops: seq<Op>, name: string)
    decreases |ops|
  {
    ops == [] || (!StepStales(project, s, ops[0], name) && NoStaleStep(project, Step(project, s, ops[0]), ops[1..], name))
  }

  /** A command file stays in step throughout a run exactly when no step stales it. */
  lemma {:induction false} InStepThroughoutIff(project: Project, s: State, ops: seq<Op>, name: string)
    requires Valid(project, s) && SoundOps(project, ops) && !Skipped(project, name)
    ensures InStepThroughout(project, s, ops, name) <==> InSync(project, s, name) && NoStaleStep(project, s, ops, name)
    decreases |ops|
  {
    hide Valid, Step, InSync, StepSettles, StepStales, Skipped, Sound;
    if ops != [] {
      assert ops[0] in ops;
      StepKeepsSync(project, s, ops[0], name);
      InStepThroughoutIff(project, Step(project, s, ops[0]), ops[1..], name);
    }
  }

  /** A file for every command listed. */
  ghost predicate Complete(preset: Preset) {
    forall t :: t in preset.commands ==> t.file.Some?
  }

  ghost predicate AllComplete(reg: Registry) {
    forall id :: id in reg ==> Complete(reg[id].preset)
  }

  /** Presets with a file for every command they list never stale one. */
  lemma CompleteNeverStales(project: Project, s: State, op: Op, name: string)
    requires Valid(project, s) && AllComplete(s.registry) && InSync(project, s, name) && !Skipped(project, name)
    requires op.Add? ==> Sound(project, op.preset) && Complete(op.preset)
    ensures !StepStales(project, s, op, name) && AllComplete(Step(project, s, op).registry)
  {
    match op {
      case Add(preset, priority, compatible) =>
        ShippedIsListed(preset, name);
        hide Skipped, Desired, Lists, Sound, Ships, Layers, Reconcile, Registration, WrittenCommands, EffectiveStrategy, Complete;
        assert Lists(preset, name) ==> LayerOf(project.yaml, preset, name).Some? by { ListedIsLayer(project.yaml, preset, name); }
      case Drop(id) =>
        hide Reconcile, Registration, WrittenCommands, Skipped, Desired;
        if StepStales(project, s, op, name) {
          hide Sound, Lists;
          StepKeepsSync(project, s, op, name);
          RemoveSettles(project, s, id, name);
          UnshippedIsUnlisted(s.registry[id].preset, name);
        }
    }
  }

  lemma ListedIsLayer(yaml: Yaml, preset: Preset, name: string)
    requires Complete(preset)
    ensures Lists(preset, name) ==> LayerOf(yaml, preset, name).Some?
  {
  }

  lemma UnshippedIsUnlisted(preset: Preset, name: string)
    requires Complete(preset)
    ensures !Ships(preset, name) ==> !Lists(preset, name)
  {
  }

  lemma {:induction false} CompleteRunsStayInStep(project: Project, s: State, ops: seq<Op>, name: string)
    requires Valid(project, s) && SoundOps(project, ops) && !Skipped(project, name) && InSync(project, s, name)
    requires AllComplete(s.registry) && forall op :: op in ops && op.Add? ==> Complete(op.preset)
    ensures InStepThroughout(project, s, ops, name)
    decreases |ops|
  {
    hide Valid, Step, InSync, StepSettles, StepStales, Skipped, Sound, Complete, AllComplete;
    if ops != [] {
      assert ops[0] in ops;
      CompleteNeverStales(project, s, ops[0], name);
      StepKeepsSync(project, s, ops[0], name);
      CompleteRunsStayInStep(project, Step(project, s, ops[0]), ops[1..], name);
    }
  }

  /** So the command files depend on what is installed at which priority, and not on the way there. */
  lemma OrderDoesNotMatter(project: Project, s: State, one: seq<Op>, other: seq<Op>, name: string)
    requires Valid(project, s) && SoundOps(project, one) && SoundOps(project, other) && InSync(project, s, name) && !Skipped(project, name)
    requires KeptInStep(project, s, one, name, true) && KeptInStep(project, s, other, name, true)
    requires SamePresets(Run(project, s, one).registry, Run(project, s, other).registry)
    ensures FileOf(Run(project, s, one).files, name) == FileOf(Run(project, s, other).files, name)
  {
    hide Run, Sound, Valid, Skipped, Desired;
    RunKeepsSync(project, s, one, name, true);
    RunKeepsSync(project, s, other, name, true);
    DesiredOfSame(project, Run(project, s, one).registry, Run(project, s, other).registry, name);
  }

  // ---- labels --------------------------------------------------------------------------------

  /** Labels name installed presets. */
  lemma LabelIsInstalled(project: Project, reg: Registry, name: string)
    requires OwnIds(reg)
    ensures Desired(project, reg, name).Some? && Desired(project, reg, name).value.origin.FromPreset? ==>
              Desired(project, reg, name).value.origin.id in reg
  {
    ListingHasAll(reg);
    FirstLayerIsInstalled(project.yaml, reg, Listing(reg), name);
  }

  lemma {:induction false} FirstLayerIsInstalled(yaml: Yaml, reg: Registry, ids: seq<string>, name: string)
    requires OwnIds(reg) && forall id :: id in ids ==> id in reg
    ensures var layers := PresetLayers(yaml, reg, ids, name);
            layers != [] ==> layers[0].source in reg && LayerOf(yaml, reg[layers[0].source].preset, name).Some?
  {
    hide EffectiveStrategy;
    if ids != [] { FirstLayerIsInstalled(yaml, reg, ids[1..], name); }
  }

  /**
   A preset that lists a command without shipping its file still lends its name to compositions, but is not
   reconciled away: after its removal the file keeps a label the current stack does not call for.
   */
  lemma MissingFileLeavesStaleLabel(project: Project, s: State, id: string, name: string)
    requires id in s.registry && name !in s.registry[id].registered
    requires OwnIds(s.registry)
    requires FileOf(s.files, name).Some? && s.files[name].origin == FromPreset(id)
    ensures var s' := Remove(project, s, id).0;
            FileOf(s'.files, name) == FileOf(s.files, name) && !InSync(project, s', name)
  {
    var s', names := Remove(project, s, id).0, s.registry[id].registered;
    hide Desired, Reconcile;
    ReconcileSettles(project, s'.registry, Unregistered(s.files, names), names, name);
    LabelIsInstalled(project, s'.registry, name);
  }

  /** One command, provided by core, in a project without extensions. */
  const BARE: Project := Project(Yaml(_ => [], _ => ""), map[], map["c" := [Provided(Core, "")]], {})

  const FILELESS: Preset := Preset("a", [CommandTemplate("c", None, None)])
  const APPENDING: Preset := Preset("b", [CommandTemplate("c", Some(""), Some(Append))])

  const FIRST_ONLY: Registry := map["a" := Entry(1, FILELESS, [])]
  const BOTH: Registry := map["a" := Entry(1, FILELESS, []), "b" := Entry(2, APPENDING, ["c"])]

  lemma SingleName()
    ensures !Skipped(BARE, "c") && "a" != "b"
  {
    assert DottedParts("c"[1..]) == [""] && "c"[1..] == "";
    assert |DottedParts("c")| == 1;
    assert "a"[0] != "b"[0];
  }

  lemma FirstOnlyLayers()
    ensures Layers(BARE, FIRST_ONLY, "c") == [Layer("", Replace, "")]
    ensures OriginOf(BARE, FIRST_ONLY, "c") == Below(Core)
  {
    ListingIsTheSortedOrder(FIRST_ONLY, ["a"]);
    assert PresetLayers(BARE.yaml, FIRST_ONLY, ["a"][1..], "c") == [];
    assert LowerLayers([Provided(Core, "")][1..]) == [];
  }

  lemma BothLayers(reg: Registry)
    requires SamePresets(reg, BOTH)
    ensures Layers(BARE, reg, "c") == [Layer("b", Append, ""), Layer("", Replace, "")]
    ensures OriginOf(BARE, reg, "c") == FromPreset("a") && TopOrigin(BARE, reg, "c") == FromPreset("b")
  {
    BothInstalledLayers(reg);
    hide InstalledLayers, FirstListing, Listing, SamePresets;
    assert LowerLayers([Provided(Core, "")][1..]) == [];
    assert LowerLayers(LowerFor(BARE, "c")) == [Layer("", Replace, "")];
    assert OverrideLayers(BARE, "c") == [];
    assert [] + [Layer("b", Append, "")] + [Layer("", Replace, "")] == [Layer("b", Append, ""), Layer("", Replace, "")];
  }

  lemma BothInstalledLayers(reg: Registry)
    requires SamePresets(reg, BOTH)
    ensures InstalledLayers(BARE, reg, "c") == [Layer("b", Append, "")]
    ensures (forall id :: id in Listing(reg) ==> id in reg) && FirstListing(reg, Listing(reg), "c") == Some("a")
  {
    SingleName();
    BothListed();
    ListingOfSame(reg, BOTH);
    hide Listing;
    TwoPresets(BARE.yaml, reg, "a", "b", "c", Layer("b", Append, ""));
  }

  lemma BothListed()
    ensures Listing(BOTH) == ["a", "b"]
  {
    SingleName();
    ListingIsTheSortedOrder(BOTH, ["a", "b"]);
  }

  /** Two presets list a command and only the second has a layer for it. */
  lemma TwoPresets(yaml: Yaml, reg: Registry, a: string, b: string, name: string, layer: Layer)
    requires a in reg && b in reg && Lists(reg[a].preset, name)
    requires LayerOf(yaml, reg[a].preset, name).None? && LayerOf(yaml, reg[b].preset, name) == Some(layer)
    ensures PresetLayers(yaml, reg, [a, b], name) == [layer] && FirstListing(reg, [a, b], name) == Some(a)
  {
    hide LayerOf, Lists;
    assert [a, b][1..] == [b] && [b][1..] == [];
    assert PresetLayers(yaml, reg, [b], name) == [layer] + [] == [layer];
    assert [] + [layer] == [layer];
  }

  lemma BothResolved()
    ensures Resolved(Command, BARE.yaml, [Layer("b", Append, ""), Layer("", Replace, "")]) == Ok(Some("\n\n"))
  {
    var layers := [Layer("b", Append, ""), Layer("", Replace, "")];
    assert layers[1..] == [layers[1]];
    assert Split("") == Parts(None, "");
    assert "" + "\n\n" + "" == "\n\n";
  }

  /** Such a label does come about: the preset without a file first, then one that appends. */
  lemma StaleLabelComesAbout()
    ensures var s := Run(BARE, State(map[], map[]), [Add(FILELESS, 1, true), Add(APPENDING, 2, true)]);
            && s.registry == BOTH && s.files == map["c" := AgentFile(FromPreset("a"), "\n\n")]
            && !InSync(BARE, Remove(BARE, s, "a").0, "c")
  {
    var s1 := State(FIRST_ONLY, map["c" := AgentFile(Below(Core), "")]);
    var s2 := State(BOTH, map["c" := AgentFile(FromPreset("a"), "\n\n")]);
    var ops := [Add(FILELESS, 1, true), Add(APPENDING, 2, true)];
    SingleName();
    InstallFileless();
    InstallAppending();
    hide Install;
    assert ops[1..] == [ops[1]] && [ops[1]][1..] == [];
    assert Run(BARE, s1, [ops[1]]) == s2;
    MissingFileLeavesStaleLabel(BARE, s2, "a", "c");
  }

  /** Installing a preset with one command. */
  lemma InstallSingle(project: Project, s: State, preset: Preset, t: CommandTemplate, priority: int, text: Option<string>)
    requires preset.commands == [t] && !Skipped(project, t.name) && preset.id !in s.registry && priority >= 1
    requires RegisteredText(project, s.registry[preset.id := Entry(priority, preset, [])], preset.id, t) == Ok(text)
    ensures var reg := s.registry[preset.id := Entry(priority, preset, if text.None? then [] else [t.name])];
            var files := if text.None? then s.files else s.files[t.name := AgentFile(FromPreset(preset.id), text.value)];
            Install(project, s, preset, priority, true)
            == (State(reg, match ReconcileOne(project, reg, files, t.name) case Err(_) => files case Ok(f) => f), None)
  {
    hide Skipped, ReconcileOne, RegisteredText;
    var reg := s.registry[preset.id := Entry(priority, preset, [])];
    assert [t][1..] == [] && [t.name][1..] == [] && [Write(t.name, text)][1..] == [];
    assert WrittenCommands(project, [t]) == [t];
    assert RegisteredText(project, reg, preset.id, [t][0]) == Ok(text);
    assert Registration(project, reg, preset.id, [t][1..]) == Ok([]);
    assert [Write(t.name, text)] + [] == [Write(t.name, text)];
    assert Registration(project, reg, preset.id, [t]) == Ok([Write(t.name, text)]);
    assert Names([t]) == [t.name] && WrittenOf([Write(t.name, text)]) == (if text.None? then [] else [t.name]);
    var files := if text.None? then s.files else s.files[t.name := AgentFile(FromPreset(preset.id), text.value)];
    assert Written(s.files, preset.id, [Write(t.name, text)]) == files;
    var reg' := reg[preset.id := Entry(priority, preset, if text.None? then [] else [t.name])];
    assert reg' == s.registry[preset.id := reg'[preset.id]];
    assert Reconcile(project, reg', files, [t.name]) == match ReconcileOne(project, reg', files, t.name) case Err(_) => files case Ok(f) => f;
  }

  lemma InstallFileless()
    ensures Install(BARE, State(map[], map[]), FILELESS, 1, true) == (State(FIRST_ONLY, map["c" := AgentFile(Below(Core), "")]), None)
  {
    SingleName();
    FirstOnlyLayers();
    hide Skipped, Layers, OriginOf, Install;
    InstallSingle(BARE, State(map[], map[]), FILELESS, FILELESS.commands[0], 1, None);
  }

  lemma NearlyBoth(reg: Registry)
    requires reg == FIRST_ONLY["b" := Entry(2, APPENDING, [])]
    ensures SamePresets(reg, BOTH) && SamePresets(BOTH, BOTH)
  {
    SingleName();
  }

  /** What the appending preset is registered with, and what its command's file is reconciled to. */
  lemma AppendingTexts(reg: Registry, files: Files)
    requires reg == FIRST_ONLY["b" := Entry(2, APPENDING, [])]
    ensures RegisteredText(BARE, reg, "b", CommandTemplate("c", Some(""), Some(Append))) == Ok(Some("\n\n"))
    ensures ReconcileOne(BARE, BOTH, files, "c") == Ok(files["c" := AgentFile(FromPreset("a"), "\n\n")])
  {
    hide Layers, OriginOf, TopOrigin, Resolved, SamePresets;
    assert SamePresets(reg, BOTH) && SamePresets(BOTH, BOTH) by { NearlyBoth(reg); }
    BothLayers(reg);
    BothLayers(BOTH);
    BothResolved();
  }

  lemma InstallAppending()
    ensures Install(BARE, State(FIRST_ONLY, map["c" := AgentFile(Below(Core), "")]), APPENDING, 2, true)
         == (State(BOTH, map["c" := AgentFile(FromPreset("a"), "\n\n")]), None)
  {
    hide Skipped, RegisteredText, ReconcileOne, Install, Reconcile, Registration, WrittenCommands, Written;
    SingleName();
    var reg := FIRST_ONLY["b" := Entry(2, APPENDING, [])];
    assert BOTH == FIRST_ONLY["b" := Entry(2, APPENDING, ["c"])];
    var before := map["c" := AgentFile(Below(Core), "")];
    var files := before["c" := AgentFile(FromPreset("b"), "\n\n")];
    AppendingTexts(reg, files);
    InstallSingle(BARE, State(FIRST_ONLY, before), APPENDING, CommandTemplate("c", Some(""), Some(Append)), 2, Some("\n\n"));
    assert files["c" := AgentFile(FromPreset("a"), "\n\n")] == map["c" := AgentFile(FromPreset("a"), "\n\n")];
  }

  /** Nothing but a preset that names its command twice, the first time without the file. */
  const EMPTY: Project := Project(Yaml(_ => [], _ => ""), map[], map[], {})
  const TWICE: Preset := Preset("a", [CommandTemplate("c", None, None), CommandTemplate("c", Some(""), None)])

  /** The second file is written for a command the stack knows nothing of. */
  lemma SecondEntryComesAbout()
    ensures var s := State(map[], map[]);
            InSync(EMPTY, s, "c") && Install(EMPTY, s, TWICE, 1, true).1.None? && !InSync(EMPTY, Step(EMPTY, s, Add(TWICE, 1, true)), "c")
  {
    var s := State(map[], map[]);
    SingleName();
    WrittenAreListed(EMPTY, TWICE.commands);
    hide Install, Reconcile, Registration, WrittenCommands, Resolved;
    var e := Install(EMPTY, s, TWICE, 1, true).1;
    if e.Some? { InstallFailsIff(EMPTY, s, TWICE, 1, true, e.value); }
    assert Layers(EMPTY, s.registry, "c") == [] && Ships(TWICE, "c") by { assert TWICE.commands[1] in TWICE.commands; }
    DesiredWithoutLayers(EMPTY, s.registry, "c");
    StepKeepsSync(EMPTY, s, Add(TWICE, 1, true), "c");
  }
}

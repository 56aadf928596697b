/**
 Command and alias names of installed extensions. Installation rejects a manifest whose names collide with those
 of another extension or leave its own namespace, so no two installed extensions ever share a name.
 */
module ExtensionNames {
  import opened Wrappers

  datatype Command = Command(name: string, aliases: seq<string>)

  /** A manifest that has passed its own validation. */
  datatype Manifest = Manifest(id: string, commands: seq<Command>)

  /** An installed extension: its manifest, and whether the file it is in can still be loaded. */
  datatype Extension = Extension(manifest: Manifest, readable: bool)

  type Registry = map<string, Extension>

  datatype Error =
    | InvalidPriority | Incompatible | AlreadyInstalled
    | CoreId | BadPattern(name: string) | ForeignNamespace(name: string) | Duplicate(name: string)
    | Collision(names: set<string>)

  // ---- names ---------------------------------------------------------------------------------

  const PREFIX: string := "speckit."

  predicate IdChars(s: string) {
    s != "" && forall c :: c in s ==> 'a' <= c <= 'z' || '0' <= c <= '9' || c == '-'
  }

  /** What stands before the first dot. */
  function BeforeDot(s: string): (r: string)
    ensures r <= s && '.' !in r && (|r| < |s| ==> s[|r|] == '.')
  {
    if s == "" || s[0] == '.' then "" else [s[0]] + BeforeDot(s[1..])
  }

  /** A name without one trailing newline, which the pattern's end anchor passes over. */
  function Chomp(s: string): string {
    if s != "" && s[|s| - 1] == '\n' then s[..|s| - 1] else s
  }

  /** The namespace of a name of the form speckit.{extension}.{command}. */
  function NamespaceOf(name: string): Option<string> {
    if !(PREFIX <= name) then None
    else
      var rest := Chomp(name[|PREFIX|..]);
      var ns := BeforeDot(rest);
      if |ns| < |rest| && IdChars(ns) && IdChars(rest[|ns| + 1..]) then Some(ns) else None
  }

  lemma {:induction false} BeforeDotOf(ns: string, cmd: string)
    requires '.' !in ns
    ensures BeforeDot(ns + "." + cmd) == ns
  {
    var s := ns + "." + cmd;
    if ns != "" {
      assert ns[0] in ns && s[1..] == ns[1..] + "." + cmd;
      assert '.' !in ns[1..];
      BeforeDotOf(ns[1..], cmd);
    }
  }

  /** The name of an extension's command. */
  function CommandName(ns: string, cmd: string): string {
    PREFIX + (ns + "." + cmd)
  }

  lemma ChompOf(s: string)
    requires s != "" && s[|s| - 1] != '\n'
    ensures Chomp(s) == s && Chomp(s + "\n") == s
  {
    assert (s + "\n")[..|s|] == s;
  }

  lemma AfterPrefix(p: string, s: string)
    ensures p <= p + s && (p + s)[|p|..] == s
  {
  }

  lemma NamespaceOfRest(after: string, ns: string, cmd: string)
    requires IdChars(ns) && IdChars(cmd) && Chomp(after) == ns + "." + cmd
    ensures NamespaceOf(PREFIX + after) == Some(ns)
  {
    var rest := ns + "." + cmd;
    BeforeDotOf(ns, cmd);
    assert rest[|ns| + 1..] == cmd;
    AfterPrefix(PREFIX, after);
    hide BeforeDot, IdChars, Chomp;
  }

  /** Put together from id characters, a name has the namespace it was given, a trailing newline or not; */
  lemma NamespaceOfCommand(ns: string, cmd: string)
    requires IdChars(ns) && IdChars(cmd)
    ensures NamespaceOf(CommandName(ns, cmd)) == Some(ns) == NamespaceOf(CommandName(ns, cmd) + "\n")
  {
    hide NamespaceOf, Chomp;
    var rest := ns + "." + cmd;
    assert cmd[|cmd| - 1] in cmd && rest[|rest| - 1] == cmd[|cmd| - 1];
    ChompOf(rest);
    NamespaceOfRest(rest, ns, cmd);
    NamespaceOfRest(rest + "\n", ns, cmd);
    assert PREFIX + (rest + "\n") == CommandName(ns, cmd) + "\n";
  }

  /** and no other name has one. */
  lemma NamedByNamespace(name: string) returns (cmd: string)
    requires NamespaceOf(name).Some?
    ensures IdChars(NamespaceOf(name).value) && IdChars(cmd)
    ensures name == CommandName(NamespaceOf(name).value, cmd) || name == CommandName(NamespaceOf(name).value, cmd) + "\n"
  {
    var after := name[|PREFIX|..];
    var rest, ns := Chomp(after), NamespaceOf(name).value;
    cmd := rest[|ns| + 1..];
    assert rest == ns + "." + cmd;
    assert after == rest || after == rest + "\n";
    assert name == PREFIX + after;
    hide BeforeDot, IdChars, Chomp;
    assert PREFIX + (rest + "\n") == PREFIX + rest + "\n";
  }

  /** All names a manifest declares, in order. */
  function NamesOf(commands: seq<Command>): seq<string> {
    if commands == [] then [] else NamesOfOne(commands[0]) + NamesOf(commands[1..])
  }

  function NamesOfOne(c: Command): seq<string> {
    [c.name] + c.aliases
  }

  lemma {:induction false} NamesAreDeclared(commands: seq<Command>, name: string)
    ensures name in NamesOf(commands) <==> exists c :: c in commands && (name == c.name || name in c.aliases)
  {
    if commands != [] {
      assert commands == [commands[0]] + commands[1..];
      NamesAreDeclared(commands[1..], name);
      assert name in NamesOfOne(commands[0]) <==> name == commands[0].name || name in commands[0].aliases;
    }
  }

  predicate NoRepeats(names: seq<string>) {
    forall i, j :: 0 <= i < j < |names| ==> names[i] != names[j]
  }

  /** What the collection of names insists on. */
  predicate WellNamed(core: set<string>, m: Manifest) {
    && m.id !in core
    && (forall c :: c in m.commands ==> NamespaceOf(c.name) == Some(m.id))
    && NoRepeats(NamesOf(m.commands))
  }

  /** A reported fault is one the manifest has. */
  ghost predicate Faulty(core: set<string>, m: Manifest, e: Error) {
    match e
    case CoreId => m.id in core
    case BadPattern(name) => (exists c :: c in m.commands && c.name == name) && NamespaceOf(name).None?
    case ForeignNamespace(name) => (exists c :: c in m.commands && c.name == name) && NamespaceOf(name).Some? && NamespaceOf(name) != Some(m.id)
    case Duplicate(name) => exists i, j :: 0 <= i < j < |NamesOf(m.commands)| && NamesOf(m.commands)[i] == NamesOf(m.commands)[j] == name
    case _ => false
  }

  /** The names of an extension. */
  function Own(e: Extension): seq<string> {
    NamesOf(e.manifest.commands)
  }

  /** The names of the other extensions, as far as their manifests can be loaded. */
  function OthersNames(reg: Registry, id: string): set<string> {
    set other, n | other in reg && other != id && reg[other].readable && n in Own(reg[other]) :: n
  }

  // ---- install and remove --------------------------------------------------------------------

  /** Whether an install goes through; the error reported otherwise is left to the method. */
  predicate Installs(core: set<string>, reg: Registry, m: Manifest, priority: int, compatible: bool, force: bool) {
    && priority >= 1 && compatible && (m.id in reg ==> force)
    && WellNamed(core, m)
    && forall n :: n in NamesOf(m.commands) ==> n !in OthersNames(reg, m.id)
  }

  /** Apart from installs and removals, a manifest file may be lost or spoilt, and be put back. */
  datatype Op = Add(m: Manifest, priority: int, compatible: bool, force: bool) | Remove(id: string) | Damage(id: string) | Repair(id: string)

  function Step(core: set<string>, reg: Registry, op: Op): Registry {
    match op
    case Add(m, priority, compatible, force) => if Installs(core, reg, m, priority, compatible, force) then reg[m.id := Extension(m, true)] else reg
    case Remove(id) => reg - {id}
    case Damage(id) => if id in reg then reg[id := reg[id].(readable := false)] else reg
    case Repair(id) => if id in reg then reg[id := reg[id].(readable := true)] else reg
  }

  function Run(core: set<string>, reg: Registry, ops: seq<Op>): Registry
    decreases ops
  {
    if ops == [] then reg else Run(core, Step(core, reg, ops[0]), ops[1..])
  }

  /** No two extensions that can be loaded share a name; each is well named. */
  ghost predicate Inv(core: set<string>, reg: Registry) {
    && (forall id :: id in reg ==> reg[id].manifest.id == id && WellNamed(core, reg[id].manifest))
    && forall a, b, n :: a in reg && b in reg && a != b && reg[a].readable && reg[b].readable && n in Own(reg[a]) ==> n !in Own(reg[b])
  }

  /** A manifest is put back whose names another extension has been given meanwhile. */
  ghost predicate Clashes(reg: Registry, op: Op) {
    op.Repair? && op.id in reg && exists n :: n in Own(reg[op.id]) && n in OthersNames(reg, op.id)
  }

  /** An installed or repaired extension whose names no other has fits in. */
  lemma FitsIn(core: set<string>, reg: Registry, id: string, e: Extension)
    requires Inv(core, reg) && e.manifest.id == id && WellNamed(core, e.manifest)
    requires forall n :: n in Own(e) ==> n !in OthersNames(reg, id)
    ensures Inv(core, reg[id := e])
  {
    hide WellNamed, Own;
    var reg' := reg[id := e];
    forall a, b, n | a in reg' && b in reg' && a != b && reg'[a].readable && reg'[b].readable && n in Own(reg'[a]) ensures n !in Own(reg'[b]) {
      if a == id {
        assert n !in OthersNames(reg, id);
      } else if b == id {
        assert n in OthersNames(reg, id);
      }
    }
  }

  /** Every operation keeps names apart but the return of a manifest whose names are taken. */
  lemma StepKeepsInv(core: set<string>, reg: Registry, op: Op)
    requires Inv(core, reg)
    ensures Inv(core, Step(core, reg, op)) <==> !Clashes(reg, op)
  {
    hide WellNamed, Own;
    match op {
      case Add(m, priority, compatible, force) =>
        if Installs(core, reg, m, priority, compatible, force) {
          SameNames(m);
          FitsIn(core, reg, m.id, Extension(m, true));
        }
      case Remove(id) =>
      case Damage(id) =>
      case Repair(id) =>
        if id in reg {
          if Clashes(reg, op) {
            var n :| n in Own(reg[id]) && n in OthersNames(reg, id);
            var other :| other in reg && other != id && reg[other].readable && n in Own(reg[other]);
            var reg' := Step(core, reg, op);
            assert Own(reg'[id]) == Own(reg[id]) by { SameNames(reg[id].manifest); }
            assert n in Own(reg'[id]) && n in Own(reg'[other]);
          } else {
            SameNames(reg[id].manifest);
            FitsIn(core, reg, id, reg[id].(readable := true));
          }
        }
    }
  }

  lemma SameNames(m: Manifest)
    ensures Own(Extension(m, true)) == Own(Extension(m, false)) == NamesOf(m.commands)
  {
  }

  ghost predicate NoClash(core: set<string>, reg: Registry, ops: seq<Op>)
    decreases ops
  {
    ops == [] || (!Clashes(reg, ops[0]) && NoClash(core, Step(core, reg, ops[0]), ops[1..]))
  }

  ghost predicate InvThroughout(core: set<string>, reg: Registry, ops: seq<Op>)
    decreases ops
  {
    Inv(core, reg) && (ops != [] ==> InvThroughout(core, Step(core, reg, ops[0]), ops[1..]))
  }

  /** Names stay disjoint over a run of installs, forced or not, removals and damages exactly when no manifest comes back to names taken meanwhile. */
  lemma {:induction false} RunKeepsInv(core: set<string>, reg: Registry, ops: seq<Op>)
    requires Inv(core, reg)
    ensures InvThroughout(core, reg, ops) <==> NoClash(core, reg, ops)
    ensures NoClash(core, reg, ops) ==> Inv(core, Run(core, reg, ops))
    decreases ops
  {
    hide Inv, Step, Clashes;
    if ops != [] {
      StepKeepsInv(core, reg, ops[0]);
      if !Clashes(reg, ops[0]) { RunKeepsInv(core, Step(core, reg, ops[0]), ops[1..]); }
      else { NotThroughout(core, Step(core, reg, ops[0]), ops[1..]); }
    }
  }

  lemma NotThroughout(core: set<string>, reg: Registry, ops: seq<Op>)
    requires !Inv(core, reg)
    ensures !InvThroughout(core, reg, ops)
  {
  }

  /** Without repairs nothing can clash. */
  lemma {:induction false} NoRepairNoClash(core: set<string>, reg: Registry, ops: seq<Op>)
    requires forall op :: op in ops ==> !op.Repair?
    ensures NoClash(core, reg, ops)
    decreases ops
  {
    hide Step;
    if ops != [] {
      assert ops[0] in ops;
      NoRepairNoClash(core, Step(core, reg, ops[0]), ops[1..]);
    }
  }

  /** A name of an extension that cannot be loaded is given out again, and is shared once the manifest is back. */
  lemma DamagedNameIsReused(core: set<string>, a: Manifest, b: Manifest, name: string)
    requires WellNamed(core, a) && WellNamed(core, b) && a.id != b.id && name in NamesOf(a.commands) && name in NamesOf(b.commands)
    ensures !NoClash(core, map[], [Add(a, 1, true, false), Damage(a.id), Add(b, 1, true, false), Repair(a.id)])
  {
    hide WellNamed, NamesOf;
    var ops := [Add(a, 1, true, false), Damage(a.id), Add(b, 1, true, false), Repair(a.id)];
    var one: Registry := map[a.id := Extension(a, true)];
    var two: Registry := map[a.id := Extension(a, false)];
    var three: Registry := two[b.id := Extension(b, true)];
    assert Step(core, map[], ops[0]) == one && Step(core, one, ops[1]) == two && Step(core, two, ops[2]) == three;
    assert name in Own(three[b.id]) && name in OthersNames(three, a.id) && name in Own(three[a.id]);
    assert Clashes(three, ops[3]);
    assert ops[1..][1..] == ops[2..] && ops[2..][1..] == ops[3..];
    assert !NoClash(core, three, ops[3..]) && !NoClash(core, two, ops[2..]) && !NoClash(core, one, ops[1..]);
  }

  /** So a name tells its extension, and a command's extension can be read off the command. */
  lemma OwnerIsUnique(core: set<string>, ops: seq<Op>, a: string, b: string, name: string)
    requires NoClash(core, map[], ops)
    requires a in Run(core, map[], ops) && b in Run(core, map[], ops)
    requires Run(core, map[], ops)[a].readable && Run(core, map[], ops)[b].readable
    requires name in Own(Run(core, map[], ops)[a]) && name in Own(Run(core, map[], ops)[b])
    ensures a == b && a !in core
    ensures forall c :: c in Run(core, map[], ops)[a].manifest.commands ==> NamespaceOf(c.name) == Some(a)
    ensures var names := NamesOf(Run(core, map[], ops)[a].manifest.commands); forall i, j :: 0 <= i < j < |names| ==> names[i] != names[j]
  {
    RunKeepsInv(core, map[], ops);
  }

  // ---- the manager ---------------------------------------------------------------------------

  class Manager {
    const core: set<string>
    var registry: Registry

    constructor (core: set<string>)
      ensures this.core == core && registry == map[]
    {
      this.core := core;
      registry := map[];
    }

    /** Go through the commands and their aliases, rejecting the first fault met. */
    method CollectManifestCommandNames(m: Manifest) returns (r: Result<set<string>, Error>)
      ensures r.Ok? ==> WellNamed(core, m) && forall n :: n in r.value <==> n in NamesOf(m.commands)
      ensures r.Err? ==> !WellNamed(core, m) && Faulty(core, m, r.error)
    {
      hide WellNamed;
      r := CollectNames(m);
      if r.Err? {
        FaultyIsNotWellNamed(core, m, r.error);
      }
    }

    method CollectNames(m: Manifest) returns (r: Result<set<string>, Error>)
      ensures r.Ok? ==> WellNamed(core, m) && forall n :: n in r.value <==> n in NamesOf(m.commands)
      ensures r.Err? ==> Faulty(core, m, r.error)
    {
      hide NamespaceOf, Collected, NoRepeats, NamesOf, NamesOfOne, WellNamed;
      if m.id in core {
        return Err(CoreId);
      }
      var declared: set<string> := {};
      ghost var names: seq<string> := [];
      NothingCollected(m.commands);
      for i := 0 to |m.commands|
        invariant names + NamesOf(m.commands[i..]) == NamesOf(m.commands)
        invariant Collected(declared, names)
        invariant forall j :: 0 <= j < i ==> NamespaceOf(m.commands[j].name) == Some(m.id)
      {
        var c := m.commands[i];
        assert c in m.commands;
        if NamespaceOf(c.name).None? {
          return Err(BadPattern(c.name));
        }
        // Being the extension's own id, the namespace is no core command either.
        if NamespaceOf(c.name).value != m.id {
          return Err(ForeignNamespace(c.name));
        }
        NextNames(m.commands, i, names);
        var taken;
        declared, taken := DeclareNames(declared, NamesOfOne(c), names, NamesOf(m.commands));
        if taken.Some? {
          return Err(Duplicate(taken.value));
        }
        names := names + NamesOfOne(c);
      }
      assert names == NamesOf(m.commands);
      CollectedAll(declared, names);
      WellNamedFrom(core, m);
      return Ok(declared);
    }

    /** Add one command's names to those declared so far, unless one is already there. */
    method DeclareNames(declared: set<string>, own: seq<string>, ghost names: seq<string>, ghost all: seq<string>)
        returns (r: set<string>, taken: Option<string>)
      requires Collected(declared, names) && names + own <= all
      ensures taken.None? ==> Collected(r, names + own)
      ensures taken.Some? ==> exists i, j :: 0 <= i < j < |all| && all[i] == all[j] == taken.value
    {
      r := declared;
      for k := 0 to |own|
        invariant Collected(r, names + own[..k])
      {
        if own[k] in r {
          assert all[|names| + k] == own[k];
          RepeatedName(all, names + own[..k], own[k]);
          return r, Some(own[k]);
        }
        r := r + {own[k]};
        assert names + own[..k + 1] == names + own[..k] + [own[k]];
      }
      assert own[..|own|] == own;
      return r, None;
    }

    /** The names of every other extension that can be loaded, with an owner each. */
    method InstalledCommandNames(exclude: string) returns (names: map<string, string>)
      ensures names.Keys == OthersNames(registry, exclude)
      ensures forall n :: n in names ==>
                names[n] in registry && names[n] != exclude && registry[names[n]].readable && n in Own(registry[names[n]])
    {
      hide Own;
      names := map[];
      var todo := registry.Keys;
      while todo != {}
        invariant todo <= registry.Keys
        invariant forall n :: n in names ==>
                    names[n] in registry && names[n] != exclude && registry[names[n]].readable && n in Own(registry[names[n]])
        invariant forall other, n ::
                    (other in registry && other !in todo && other != exclude && registry[other].readable && n in Own(registry[other])) ==> n in names
        decreases |todo|
      {
        var other :| other in todo;
        todo := todo - {other};
        if other != exclude && registry[other].readable {
          var own := Own(registry[other]);
          names := (map n | n in own :: other) + names;
        }
      }
    }

    method ValidateInstallConflicts(m: Manifest) returns (e: Option<Error>)
      ensures e.None? <==> WellNamed(core, m) && forall n :: n in NamesOf(m.commands) ==> n !in OthersNames(registry, m.id)
      ensures e.Some? && e.value.Collision? ==> e.value.names == (set n | n in NamesOf(m.commands) && n in OthersNames(registry, m.id))
      ensures e.Some? && !e.value.Collision? ==> Faulty(core, m, e.value)
      ensures e.Some? ==> !e.value.InvalidPriority? && !e.value.Incompatible? && !e.value.AlreadyInstalled?
    {
      hide WellNamed, Faulty;
      var declared := CollectManifestCommandNames(m);
      if declared.Err? {
        NoCollisionIsFaulty(core, m, declared.error);
        return Some(declared.error);
      }
      var installed := InstalledCommandNames(m.id);
      var collisions := set n | n in declared.value && n in installed;
      if collisions != {} {
        assert exists n :: n in collisions;
        return Some(Collision(collisions));
      }
      assert forall n :: n in declared.value ==> n !in collisions;
      return None;
    }

    /** A forced install over an installed extension removes the old one first. */
    method InstallFromDirectory(m: Manifest, priority: int, compatible: bool, force: bool) returns (e: Option<Error>)
      modifies this`registry
      ensures registry == Step(core, old(registry), Add(m, priority, compatible, force))
      ensures e.None? <==> Installs(core, old(registry), m, priority, compatible, force)
      ensures e == Some(InvalidPriority) <==> priority < 1
      ensures e == Some(Incompatible) <==> priority >= 1 && !compatible
      ensures e == Some(AlreadyInstalled) <==> priority >= 1 && compatible && m.id in old(registry) && !force
    {
      if priority < 1 {
        return Some(InvalidPriority);
      }
      if !compatible {
        return Some(Incompatible);
      }
      if m.id in registry && !force {
        return Some(AlreadyInstalled);
      }
      hide WellNamed, Faulty;
      e := ValidateInstallConflicts(m);
      if e.Some? {
        return;
      }
      if force && m.id in registry {
        var removed := RemoveExtension(m.id);
      }
      registry := registry[m.id := Extension(m, true)];
    }

    method RemoveExtension(id: string) returns (removed: bool)
      modifies this`registry
      ensures registry == Step(core, old(registry), Remove(id)) && removed == (id in old(registry))
    {
      removed := id in registry;
      registry := registry - {id};
    }
  }

  /** The set holds exactly these names, none of which repeats. */
  ghost predicate Collected(declared: set<string>, names: seq<string>) {
    NoRepeats(names) && forall n :: n in declared <==> n in names
  }

  lemma NothingCollected(commands: seq<Command>)
    ensures Collected({}, []) && [] + NamesOf(commands[0..]) == NamesOf(commands) && NamesOf(commands[|commands|..]) == []
  {
    assert commands[0..] == commands && commands[|commands|..] == [];
  }

  lemma CollectedAll(declared: set<string>, names: seq<string>)
    requires Collected(declared, names)
    ensures NoRepeats(names) && forall n :: n in declared <==> n in names
  {
  }

  lemma Regroup<T>(a: seq<T>, b: seq<T>, c: seq<T>)
    ensures a + (b + c) == a + b + c && a + b <= a + (b + c)
  {
  }

  lemma NextNames(commands: seq<Command>, i: nat, names: seq<string>)
    requires i < |commands| && names + NamesOf(commands[i..]) == NamesOf(commands)
    ensures var own := NamesOfOne(commands[i]);
            names + own + NamesOf(commands[i + 1..]) == NamesOf(commands) && names + own <= NamesOf(commands)
  {
    assert commands[i..][1..] == commands[i + 1..];
    assert NamesOf(commands[i..]) == NamesOfOne(commands[i]) + NamesOf(commands[i + 1..]);
    hide NamesOf, NamesOfOne;
    Regroup(names, NamesOfOne(commands[i]), NamesOf(commands[i + 1..]));
  }

  lemma WellNamedFrom(core: set<string>, m: Manifest)
    requires m.id !in core && NoRepeats(NamesOf(m.commands))
    requires forall j :: 0 <= j < |m.commands| ==> NamespaceOf(m.commands[j].name) == Some(m.id)
    ensures WellNamed(core, m)
  {
  }

  lemma FaultyIsNotWellNamed(core: set<string>, m: Manifest, e: Error)
    requires Faulty(core, m, e)
    ensures !WellNamed(core, m)
  {
  }

  lemma RepeatedName(all: seq<string>, names: seq<string>, name: string)
    requires names <= all && name in names && |names| < |all| && all[|names|] == name
    ensures exists i, j :: 0 <= i < j < |all| && all[i] == all[j] == name
  {
    var i :| 0 <= i < |names| && names[i] == name;
    assert all[i] == all[|names|] == name;
  }

  lemma NoCollisionIsFaulty(core: set<string>, m: Manifest, e: Error)
    requires Faulty(core, m, e)
    ensures !e.Collision? && !e.InvalidPriority? && !e.Incompatible? && !e.AlreadyInstalled?
  {
  }
}

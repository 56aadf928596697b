/**
 Updating an installed extension: back up, remove, install, restore the metadata, and on any failure roll back.
 Every file operation may be the one that fails; nothing more of the update runs then.
 */
module ExtensionUpdate {
  import opened HookExecutor
  import opened Hooks
  import opened Wrappers

  /** A registry entry; `commands` are the paths of the command files registered for it. */
  datatype Meta = Meta(version: string, installedAt: Option<string>, priority: Option<RawPriority>, enabled: bool, commands: seq<string>)

  /** Files by path. */
  type Tree = map<string, string>

  datatype Output = Output(path: string, content: string)

  /** A downloaded version: its declared id, files, rendered commands and hooks, and whether its manifest passes validation. */
  datatype Release = Release(archiveId: Option<string>, version: string, files: Tree, outputs: seq<Output>, hooks: Manifest, acceptable: bool)

  /** The backup area of one update. */
  datatype Backup = Backup(extension: Option<Tree>, configs: Tree, commands: Tree)

  /** Everything an update is about. */
  datatype World = World(registry: map<string, Meta>, dirs: map<string, Tree>, commands: Tree, installed: seq<Listed>, events: Events)

  const DEFAULT_INSTALL_PRIORITY: int := 10

  predicate EndsWith(s: string, suffix: string) {
    |suffix| <= |s| && s[|s| - |suffix|..] == suffix
  }

  /** Top-level configuration files belong to the user. */
  predicate IsConfig(path: string) {
    (EndsWith(path, "-config.yml") || EndsWith(path, "-config.local.yml")) && '/' !in path
  }

  function Configs(dir: Tree): Tree {
    map n | n in dir && IsConfig(n) :: dir[n]
  }

  function PathsOf(outputs: seq<Output>): (r: seq<string>)
    ensures |r| == |outputs| && forall i :: 0 <= i < |r| ==> r[i] == outputs[i].path
  {
    if outputs == [] then [] else [outputs[0].path] + PathsOf(outputs[1..])
  }

  /** The registered files that exist, in their order. */
  function Existing(files: Tree, paths: seq<string>): (r: seq<string>)
    ensures forall p :: p in r <==> p in paths && p in files
  {
    if paths == [] then []
    else
      assert paths == [paths[0]] + paths[1..];
      (if paths[0] in files then [paths[0]] else []) + Existing(files, paths[1..])
  }

  /** All hooks of an extension switched off. */
  function Disabled(hooks: seq<Hook>, id: string): (r: seq<Hook>)
    ensures |r| == |hooks|
    ensures forall i :: 0 <= i < |r| ==> r[i] == if hooks[i].extension == id then hooks[i].(enabled := false) else hooks[i]
  {
    if hooks == [] then []
    else [if hooks[0].extension == id then hooks[0].(enabled := false) else hooks[0]] + Disabled(hooks[1..], id)
  }

  function DisabledEvents(events: Events, id: string): Events {
    map event | event in events :: Disabled(events[event], id)
  }

  /** The entry an install writes. */
  function FreshEntry(release: Release, now: string): Meta {
    Meta(release.version, Some(now), Some(Number(DEFAULT_INSTALL_PRIORITY)), true, PathsOf(release.outputs))
  }

  /** The new entry with what is kept of the old one: its installation time, its priority made valid, its being disabled. */
  function Renewed(current: Meta, previous: Meta): Meta {
    Meta(current.version,
         if previous.installedAt.Some? then previous.installedAt else current.installedAt,
         if previous.priority.Some? then Some(Number(NormalizePriority(previous.priority.value))) else current.priority,
         previous.enabled && current.enabled,
         current.commands)
  }

  // ---- what an update may touch --------------------------------------------------------------

  ghost predicate SameAt(a: Tree, b: Tree, path: string) {
    (path in a <==> path in b) && (path in a ==> a[path] == b[path])
  }

  /** From `before` to `now`, only this extension's entry, directory, hooks and the given command files have changed. */
  ghost predicate Within(before: World, now: World, id: string, paths: set<string>) {
    && now.registry - {id} == before.registry - {id}
    && now.dirs - {id} == before.dirs - {id}
    && (forall p :: p !in paths ==> SameAt(before.commands, now.commands, p))
    && (forall event :: Pick(At(now.events, event), id, false) == Pick(At(before.events, event), id, false))
    && (now.registry == before.registry || (id in now.registry ==> forall p :: p in now.registry[id].commands ==> p in paths))
  }

  lemma WithinTrans(a: World, b: World, c: World, id: string, paths: set<string>)
    requires Within(a, b, id, paths) && Within(b, c, id, paths)
    ensures Within(a, c, id, paths)
  {
    forall p | p !in paths ensures SameAt(a.commands, c.commands, p) {
      assert SameAt(a.commands, b.commands, p) && SameAt(b.commands, c.commands, p);
    }
  }

  lemma WithinKeepsDirs(a: World, b: World, id: string, paths: set<string>)
    requires Within(a, b, id, paths)
    ensures b.dirs - {id} == a.dirs - {id}
  {
  }

  lemma WithinSelf(a: World, id: string, paths: set<string>)
    ensures Within(a, a, id, paths)
  {
  }

  /** How many operations the backup of the directory takes, and so how many before the first command file is backed up. */
  function DirectoryBackupOps(dir: Option<Tree>, stale: bool): nat {
    match dir
    case None => 0
    case Some(files) => 2 + (if stale then 1 else 0) + |Configs(files)|
  }

  /** The directory backup after that many operations: made, cleared but not made, or still the stale one. */
  function BackedUpDir(dir: Option<Tree>, stale: Option<Tree>, budget: nat): Option<Tree> {
    if dir.None? then stale
    else if budget >= (if stale.Some? then 3 else 2) then dir
    else if budget == 2 then None
    else stale
  }

  function Min(a: nat, b: nat): nat {
    if a < b then a else b
  }

  const NO_BACKUP: Backup := Backup(None, map[], map[])

  function Overwritten(files: Tree, outputs: seq<Output>): Tree
    decreases outputs
  {
    if outputs == [] then files else Overwritten(files[outputs[0].path := outputs[0].content], outputs[1..])
  }

  lemma UnregisteredAt(events: Events, id: string)
    ensures forall event :: Pick(At(Unregistered(events, id), event), id, false) == Pick(At(events, event), id, false)
  {
    forall event ensures Pick(At(Unregistered(events, id), event), id, false) == Pick(At(events, event), id, false) {
      RegisteredAt(events, id, map[], event);
      PickAll(Pick(At(events, event), id, false), id, false);
    }
  }

  lemma RegisteredOthers(events: Events, id: string, hooks: Manifest)
    ensures forall event :: Pick(At(Registered(events, id, hooks), event), id, false) == Pick(At(events, event), id, false)
  {
    forall event ensures Pick(At(Registered(events, id, hooks), event), id, false) == Pick(At(events, event), id, false) {
      RegisteredAt(events, id, hooks, event);
      OwnDeclared(id, hooks, event);
      OthersThenOwn(Pick(At(events, event), id, false), DeclaredAt(id, hooks, event), id);
    }
  }

  /** Registered files outside the backup go, files in the backup come back. */
  function RolledBack(files: Tree, registered: seq<string>, saved: seq<string>, copies: Tree): Tree {
    (files - Unsaved(registered, saved)) + CopiesOf(saved, copies)
  }

  function Unsaved(registered: seq<string>, saved: seq<string>): set<string> {
    set p | p in registered && p !in saved
  }

  function CopiesOf(saved: seq<string>, copies: Tree): Tree {
    map p | p in saved && p in copies :: copies[p]
  }

  lemma NothingDone(files: Tree, saved: seq<string>, copies: Tree)
    ensures files - Unsaved([], saved) == files && files + CopiesOf([], copies) == files
  {
  }

  lemma DeleteOneMore(files: Tree, registered: seq<string>, saved: seq<string>, i: nat)
    requires i < |registered|
    ensures var p, left := registered[i], files - Unsaved(registered[..i], saved);
            files - Unsaved(registered[..i + 1], saved) == if p in left && p !in saved then left - {p} else left
  {
    assert registered[..i + 1] == registered[..i] + [registered[i]];
  }

  lemma CopyOneMore(files: Tree, saved: seq<string>, copies: Tree, i: nat)
    requires i < |saved| && saved[i] in copies
    ensures files + CopiesOf(saved[..i + 1], copies) == (files + CopiesOf(saved[..i], copies))[saved[i] := copies[saved[i]]]
  {
    assert saved[..i + 1] == saved[..i] + [saved[i]];
  }

  /** The own hooks of a backup behind everybody else's current ones. */
  function WithOwn(events: Events, own: Events, id: string): Events {
    map event | event in events.Keys + own.Keys :: Pick(At(events, event), id, false) + At(own, event)
  }

  function OwnEvents(events: Events, id: string): Events {
    map event | event in events && Pick(events[event], id, true) != [] :: Pick(events[event], id, true)
  }

  lemma {:induction false} DisabledPick(hooks: seq<Hook>, id: string)
    ensures Pick(Disabled(hooks, id), id, false) == Pick(hooks, id, false)
  {
    if hooks != [] { DisabledPick(hooks[1..], id); }
  }

  lemma DisabledOthers(events: Events, id: string)
    ensures forall event :: Pick(At(DisabledEvents(events, id), event), id, false) == Pick(At(events, event), id, false)
  {
    forall event ensures Pick(At(DisabledEvents(events, id), event), id, false) == Pick(At(events, event), id, false) {
      DisabledPick(At(events, event), id);
    }
  }

  /** Which of the existing registered files are backed up when the update has that many operations. */
  function SavedWithin(before: World, id: string, stale: bool, budget: nat): seq<string>
    requires id in before.registry
  {
    var existing := Existing(before.commands, before.registry[id].commands);
    var ops := DirectoryBackupOps(if id in before.dirs then Some(before.dirs[id]) else None, stale);
    existing[..if budget < ops then 0 else Min(budget - ops, |existing|)]
  }

  /** The registered command files that removal deletes. */
  function Present(files: Tree, paths: seq<string>): set<string> {
    set p | p in paths && p in files
  }

  /**
   Whether an update of an extension without a directory gets as far as placing the new one: the archive passes, and the
   operations suffice for the backup of the command files, the download, the removal, the check of the manifest and the copy.
   */
  predicate Placed(before: World, id: string, release: Release, budget: nat)
    requires id in before.registry
  {
    var registered := before.registry[id].commands;
    && release.archiveId == Some(id) && release.acceptable
    && budget >= |Existing(before.commands, registered)| + |Present(before.commands, registered)| + 6
  }

  /** The files of a new version with some configuration files put over them. */
  ghost predicate LeftBehind(dir: Tree, files: Tree, configs: Tree) {
    && (forall p :: p in files ==> p in dir)
    && (forall p :: p in dir ==> (p in files && dir[p] == files[p]) || (p in configs && dir[p] == configs[p]))
  }

  /** Where there was no directory, there is one exactly if the update placed it. */
  ghost predicate NewDirectory(before: World, now: World, id: string, release: Release, configs: Tree, budget: nat)
    requires id in before.registry
  {
    id !in before.dirs ==>
      && (id in now.dirs <==> Placed(before, id, release, budget))
      && (id in now.dirs ==> LeftBehind(now.dirs[id], release.files, configs))
  }

  /** What a failed update leaves. The rollback has no backup of a missing directory, so a new one stays. */
  ghost predicate RolledBackTo(before: World, after: World, id: string, release: Release, stale: Option<Tree>, configs: Tree, budget: nat)
    requires id in before.registry
  {
    && after.registry == before.registry
    && after.installed == before.installed
    && (forall event, own :: Pick(At(after.events, event), id, own) == Pick(At(before.events, event), id, own))
    && after.dirs - {id} == before.dirs - {id}
    && (if stale.Some? && (id !in before.dirs || budget < 2) then id in after.dirs && after.dirs[id] == stale.value
        else if id in before.dirs then id in after.dirs && after.dirs[id] == before.dirs[id]
        else NewDirectory(before, after, id, release, configs, budget))
    && var registered, saved := before.registry[id].commands, SavedWithin(before, id, stale.Some?, budget);
       && (forall p :: p in registered && p in before.commands ==>
             if p in saved then SameAt(before.commands, after.commands, p) else p !in after.commands)
       && (forall p :: p !in registered && p !in PathsOf(release.outputs) ==> SameAt(before.commands, after.commands, p))
  }

  lemma JustPlaced(files: Tree, configs: Tree)
    ensures LeftBehind(files, files, configs)
  {
  }

  /** Configuration on its way back: what is still to do would complete it. */
  ghost predicate Restoring(dir: Tree, todo: Tree, files: Tree, configs: Tree) {
    && dir + todo == files + configs && LeftBehind(dir, files, configs)
    && forall n :: n in todo ==> n in configs && todo[n] == configs[n]
  }

  lemma RestoringStarts(files: Tree, configs: Tree)
    ensures Restoring(files, configs, files, configs)
  {
  }

  lemma RestoringGoesOn(dir: Tree, todo: Tree, files: Tree, configs: Tree, n: string)
    requires Restoring(dir, todo, files, configs) && n in todo
    ensures Restoring(dir[n := todo[n]], todo - {n}, files, configs) && |todo - {n}| == |todo| - 1
  {
    AddOne(dir, todo, n);
  }

  lemma RestoringEnds(dir: Tree, todo: Tree, files: Tree, configs: Tree)
    requires Restoring(dir, todo, files, configs)
    ensures LeftBehind(dir, files, configs) && (todo == map[] ==> dir == files + configs)
  {
    assert todo == map[] ==> dir + todo == dir;
  }

  /** An update that fails while it backs up has not placed anything. */
  lemma NotYetPlaced(before: World, id: string, release: Release, configs: Tree, budget: nat)
    requires id in before.registry
    requires id in before.dirs || budget < |Existing(before.commands, before.registry[id].commands)|
    ensures NewDirectory(before, before, id, release, configs, budget)
  {
  }

  /** After the backups, what is left of the operations decides. */
  lemma PlacedOrNot(before: World, now: World, id: string, release: Release, configs: Tree, backedUp: Tree, budget: nat, left: nat)
    requires id in before.registry && (id !in before.dirs ==> backedUp == configs)
    requires var registered := before.registry[id].commands;
             id !in before.dirs ==>
               && budget == left + |Existing(before.commands, registered)|
               && (id in now.dirs <==> release.archiveId == Some(id) && release.acceptable && left >= |Present(before.commands, registered)| + 6)
               && (id in now.dirs ==> LeftBehind(now.dirs[id], release.files, backedUp))
    ensures NewDirectory(before, now, id, release, configs, budget)
  {
  }

  lemma CutShort(saved: seq<string>, existing: seq<string>, budget: nat)
    requires saved <= existing && saved != existing && |saved| == Min(budget, |existing|)
    ensures budget < |existing|
  {
  }

  lemma NoDirectoryToBackUp(stale: bool)
    ensures DirectoryBackupOps(None, stale) == 0
  {
  }

  lemma HoldsCopies(copies: Tree, files: Tree, saved: seq<string>)
    requires HoldsAll(copies, files, saved)
    ensures forall p :: p in saved ==> p in copies
  {
  }

  lemma SavedNothing(before: World, id: string, stale: bool, budget: nat)
    requires id in before.registry
    requires budget < DirectoryBackupOps(if id in before.dirs then Some(before.dirs[id]) else None, stale)
    ensures SavedWithin(before, id, stale, budget) == []
  {
  }

  lemma SavedSome(before: World, id: string, stale: bool, budget: nat, saved: seq<string>)
    requires id in before.registry
    requires var ops := DirectoryBackupOps(if id in before.dirs then Some(before.dirs[id]) else None, stale);
             var existing := Existing(before.commands, before.registry[id].commands);
             budget >= ops && saved <= existing && |saved| == Min(budget - ops, |existing|)
    ensures saved == SavedWithin(before, id, stale, budget)
    ensures forall p :: p in saved ==> p in before.registry[id].commands
  {
    SavedPrefix(saved, Existing(before.commands, before.registry[id].commands), |saved|);
    assert forall p :: p in saved ==> p in Existing(before.commands, before.registry[id].commands);
  }

  lemma SavedPrefix(saved: seq<string>, existing: seq<string>, n: nat)
    requires saved <= existing && |saved| == n
    ensures saved == existing[..n]
  {
  }

  /** The state a rollback starts from: nothing changed yet, or everything it needs was backed up. */
  ghost predicate CanRollBack(w0: World, w1: World, id: string, release: Release, saved: seq<string>, copies: Tree, hooks: Option<Events>)
    requires id in w0.registry
  {
    var registered := w0.registry[id].commands;
    && HoldsAll(copies, w0.commands, saved) && (forall p :: p in saved ==> p in registered)
    && match hooks
       case None => w1 == w0
       case Some(own) =>
         && Within(w0, w1, id, (set p | p in registered) + (set p | p in PathsOf(release.outputs)))
         && saved == Existing(w0.commands, registered) && own == OwnEvents(w0.events, id)
  }

  lemma NothingToRollBack(w: World, id: string, release: Release, saved: seq<string>, copies: Tree)
    requires id in w.registry && HoldsAll(copies, w.commands, saved) && forall p :: p in saved ==> p in w.registry[id].commands
    ensures CanRollBack(w, w, id, release, saved, copies, None)
  {
  }

  lemma AllToRollBack(w0: World, w1: World, id: string, release: Release, saved: seq<string>, copies: Tree)
    requires id in w0.registry && HoldsAll(copies, w0.commands, saved) && saved == Existing(w0.commands, w0.registry[id].commands)
    requires Within(w0, w1, id, (set p | p in w0.registry[id].commands) + (set p | p in PathsOf(release.outputs)))
    ensures CanRollBack(w0, w1, id, release, saved, copies, Some(OwnEvents(w0.events, id)))
  {
  }

  lemma PickOfParts(others: seq<Hook>, mine: seq<Hook>, id: string, own: bool)
    requires (forall h :: h in others ==> h.extension != id) && forall h :: h in mine ==> h.extension == id
    ensures Pick(others + mine, id, own) == if own then mine else others
  {
    PickAll(others, id, false);
    PickAll(mine, id, true);
    PickOfMore(others, mine, id, own);
    assert [] + mine == mine && others + [] == others;
  }

  lemma AtWithOwn(events: Events, own: Events, id: string, event: string)
    ensures At(WithOwn(events, own, id), event) == Pick(At(events, event), id, false) + At(own, event)
    ensures At(OwnEvents(events, id), event) == Pick(At(events, event), id, true)
  {
  }

  lemma RolledBackEvents(w0: World, w1: World, id: string, event: string, own: bool)
    requires Pick(At(w1.events, event), id, false) == Pick(At(w0.events, event), id, false)
    ensures Pick(At(WithOwn(w1.events, OwnEvents(w0.events, id), id), event), id, own) == Pick(At(w0.events, event), id, own)
  {
    AtWithOwn(w1.events, OwnEvents(w0.events, id), id, event);
    AtWithOwn(w0.events, map[], id, event);
    PickOfParts(Pick(At(w0.events, event), id, false), Pick(At(w0.events, event), id, true), id, own);
    hide Pick, At, WithOwn, OwnEvents;
  }

  lemma EntryBack<V>(a: map<string, V>, b: map<string, V>, id: string)
    requires a - {id} == b - {id} && id in b
    ensures a[id := b[id]] == b
  {
    assert forall x :: x in a && x != id ==> x in a - {id};
    assert forall x :: x in b && x != id ==> x in b - {id};
    assert forall x :: x in b && x != id ==> (a - {id})[x] == (b - {id})[x];
  }

  lemma RolledBackCommands(w0: World, w1: World, id: string, release: Release, saved: seq<string>, copies: Tree, hooks: Option<Events>, p: string)
    requires id in w0.registry && CanRollBack(w0, w1, id, release, saved, copies, hooks)
    ensures var registered := w0.registry[id].commands;
            var after := RolledBack(w1.commands, if id in w1.registry then w1.registry[id].commands else [], saved, copies);
            && (p in registered && p in w0.commands ==> if p in saved then SameAt(w0.commands, after, p) else p !in after)
            && (p !in registered && p !in PathsOf(release.outputs) ==> SameAt(w0.commands, after, p))
  {
    var registered := w0.registry[id].commands;
    hide PathsOf, Existing;
    if hooks.Some? && p !in registered && p !in PathsOf(release.outputs) {
      assert SameAt(w0.commands, w1.commands, p);
    }
  }

  lemma RolledBackDirs(w0: World, w1: World, w2: World, id: string, release: Release, stale: Option<Tree>, configs: Tree, budget: nat,
                       saved: seq<string>, copies: Tree, hooks: Option<Events>)
    requires id in w0.registry && CanRollBack(w0, w1, id, release, saved, copies, hooks) && NewDirectory(w0, w1, id, release, configs, budget)
    requires hooks.Some? ==> budget >= DirectoryBackupOps(if id in w0.dirs then Some(w0.dirs[id]) else None, stale.Some?)
    requires var ext := BackedUpDir(if id in w0.dirs then Some(w0.dirs[id]) else None, stale, budget);
             w2.dirs == if ext.Some? then w1.dirs[id := ext.value] else w1.dirs
    ensures w2.dirs - {id} == w0.dirs - {id}
    ensures if stale.Some? && (id !in w0.dirs || budget < 2) then id in w2.dirs && w2.dirs[id] == stale.value
            else if id in w0.dirs then id in w2.dirs && w2.dirs[id] == w0.dirs[id]
            else NewDirectory(w0, w2, id, release, configs, budget)
    ensures w1.registry - {id} == w0.registry - {id}
    ensures hooks.Some? ==> hooks.value == OwnEvents(w0.events, id)
    ensures hooks.None? ==> w1.events == w0.events
    ensures forall event :: Pick(At(w1.events, event), id, false) == Pick(At(w0.events, event), id, false)
  {
    hide HoldsAll, Existing, PathsOf, Pick, At, OwnEvents, SameAt, Configs, Placed, LeftBehind;
  }

  /** What a rollback makes of such a state. */
  lemma RollbackSum(w0: World, w1: World, w2: World, id: string, release: Release, stale: Option<Tree>, configs: Tree, budget: nat,
                    saved: seq<string>, copies: Tree, hooks: Option<Events>)
    requires id in w0.registry && CanRollBack(w0, w1, id, release, saved, copies, hooks)
    requires saved == SavedWithin(w0, id, stale.Some?, budget) && NewDirectory(w0, w1, id, release, configs, budget)
    requires var ops := DirectoryBackupOps(if id in w0.dirs then Some(w0.dirs[id]) else None, stale.Some?);
             hooks.Some? ==> budget >= ops
    requires w2.registry == w1.registry[id := w0.registry[id]]
    requires var ext := BackedUpDir(if id in w0.dirs then Some(w0.dirs[id]) else None, stale, budget);
             w2.dirs == if ext.Some? then w1.dirs[id := ext.value] else w1.dirs
    requires w2.commands == RolledBack(w1.commands, if id in w1.registry then w1.registry[id].commands else [], saved, copies)
    requires w2.installed == w0.installed
    requires w2.events == match hooks case None => w1.events case Some(own) => WithOwn(w1.events, own, id)
    ensures RolledBackTo(w0, w2, id, release, stale, configs, budget)
  {
    hide CanRollBack, RolledBack, WithOwn, OwnEvents, Existing, PathsOf, HoldsAll, SavedWithin, SameAt, Pick, At, BackedUpDir, DirectoryBackupOps, NewDirectory;
    RolledBackDirs(w0, w1, w2, id, release, stale, configs, budget, saved, copies, hooks);
    forall event, own ensures Pick(At(w2.events, event), id, own) == Pick(At(w0.events, event), id, own) {
      if hooks.Some? { RolledBackEvents(w0, w1, id, event, own); }
    }
    forall p {
      RolledBackCommands(w0, w1, id, release, saved, copies, hooks, p);
    }
    EntryBack(w1.registry, w0.registry, id);
  }

  /** A successful update: the new version, with what the old entry and the user's configuration keep. */
  ghost predicate Replaced(before: World, after: World, id: string, entry: Meta, release: Release, now: string, configs: Tree) {
    && after.registry == before.registry[id := Renewed(FreshEntry(release, now), entry)]
    && id in after.dirs && after.dirs[id] == release.files + configs
    && after.events == (var renewed := Registered(Unregistered(before.events, id), id, release.hooks);
                        if entry.enabled then renewed else DisabledEvents(renewed, id))
    && NewCommandFiles(before.commands, after.commands, entry.commands, release.outputs)
    && Arranges(after.installed, Seen(before.installed)[id := Plain(id)])
    && after.dirs - {id} == before.dirs - {id}
  }

  /** Of the command files, the old registered ones are gone, the new ones are there as rendered, and the others are as before. */
  ghost predicate NewCommandFiles(before: Tree, after: Tree, registered: seq<string>, outputs: seq<Output>) {
    forall p ::
      if p in PathsOf(outputs) then p in after && WrittenLast(outputs, p, after[p])
      else if p in registered then p !in after
      else SameAt(before, after, p)
  }

  /** The last output with that path has this content. */
  ghost predicate WrittenLast(outputs: seq<Output>, path: string, content: string) {
    exists k :: 0 <= k < |outputs| && outputs[k] == Output(path, content) && forall j :: k < j < |outputs| ==> outputs[j].path != path
  }

  /** The new version in place of the old one, before configuration and metadata are given back. */
  ghost predicate Reinstalled(before: World, after: World, id: string, entry: Meta, release: Release, now: string) {
    && after.registry == before.registry[id := FreshEntry(release, now)]
    && id in after.dirs && after.dirs[id] == release.files
    && after.events == Registered(Unregistered(before.events, id), id, release.hooks)
    && NewCommandFiles(before.commands, after.commands, entry.commands, release.outputs)
    && Arranges(after.installed, Seen(before.installed)[id := Plain(id)])
  }

  lemma ReinstalledSum(w0: World, w1: World, w2: World, id: string, entry: Meta, release: Release, now: string)
    requires ValidId(id)
    requires w1.registry == w0.registry - {id} && w1.events == Unregistered(w0.events, id) && Arranges(w1.installed, Kept(w0.installed, "", id))
    requires forall p :: if p in entry.commands then p !in w1.commands else SameAt(w0.commands, w1.commands, p)
    requires w2.registry == w1.registry[id := FreshEntry(release, now)] && id in w2.dirs && w2.dirs[id] == release.files
    requires w2.events == Registered(w1.events, id, release.hooks) && w2.commands == Overwritten(w1.commands, release.outputs)
    requires Arranges(w2.installed, Kept(w1.installed, id, ""))
    ensures Reinstalled(w0, w2, id, entry, release, now)
  {
    hide Unregistered, Registered, Overwritten, Arranges, Kept, Seen, WrittenLast, PathsOf;
    assert w2.registry == w0.registry[id := FreshEntry(release, now)];
    TakenOffAndPutBack(w0.installed, w1.installed, id);
    forall p {
      OverwrittenHas(w1.commands, release.outputs, p);
    }
  }

  /** The steps of a replacement add up. */
  lemma ReplacedSum(w0: World, w1: World, w2: World, id: string, entry: Meta, release: Release, now: string, configs: Tree)
    requires Reinstalled(w0, w1, id, entry, release, now) && w2.installed == w1.installed && w2.dirs - {id} == w0.dirs - {id}
    requires w2.commands == w1.commands && id in w2.dirs && w2.dirs[id] == w1.dirs[id] + configs
    requires w2.registry == w1.registry[id := Renewed(w1.registry[id], entry)]
    requires w2.events == if entry.enabled then w1.events else DisabledEvents(w1.events, id)
    ensures Replaced(w0, w2, id, entry, release, now, configs)
  {
    hide Unregistered, Registered, DisabledEvents, NewCommandFiles, Arranges, Seen;
    assert w2.registry == w0.registry[id := Renewed(FreshEntry(release, now), entry)];
  }

  lemma {:induction false} OverwrittenHas(files: Tree, outputs: seq<Output>, p: string)
    ensures p !in PathsOf(outputs) ==> SameAt(files, Overwritten(files, outputs), p)
    ensures p in PathsOf(outputs) ==> p in Overwritten(files, outputs) && WrittenLast(outputs, p, Overwritten(files, outputs)[p])
    decreases outputs
  {
    if outputs != [] {
      var rest, after := outputs[1..], Overwritten(files, outputs);
      assert PathsOf(outputs) == [outputs[0].path] + PathsOf(rest);
      OverwrittenHas(files[outputs[0].path := outputs[0].content], rest, p);
      if p in PathsOf(rest) {
        var k :| 0 <= k < |rest| && rest[k] == Output(p, after[p]) && forall j :: k < j < |rest| ==> rest[j].path != p;
        assert outputs[k + 1] == rest[k];
        forall j | k + 1 < j < |outputs| ensures outputs[j].path != p { assert outputs[j] == rest[j - 1]; }
      } else if p == outputs[0].path {
        forall j | 0 < j < |outputs| ensures outputs[j].path != p { assert outputs[j] == rest[j - 1] && PathsOf(rest)[j - 1] in PathsOf(rest); }
        assert outputs[0] == Output(p, after[p]);
      }
    }
  }

  /** Faithful copies of all these files. */
  ghost predicate HoldsAll(copies: Tree, files: Tree, paths: seq<string>) {
    forall p :: p in paths ==> p in files && p in copies && copies[p] == files[p]
  }

  lemma NothingExisting(copies: Tree, files: Tree)
    ensures Existing(files, []) == [] && HoldsAll(copies, files, [])
  {
  }

  lemma HoldsOneMore(copies: Tree, files: Tree, paths: seq<string>, p: string)
    requires HoldsAll(copies, files, paths) && p in files
    ensures HoldsAll(copies[p := files[p]], files, paths + [p])
  {
  }

  lemma NextExisting(files: Tree, paths: seq<string>, i: nat)
    requires i < |paths|
    ensures Existing(files, paths[i..]) == (if paths[i] in files then [paths[i]] else []) + Existing(files, paths[i + 1..])
  {
    assert paths[i..][1..] == paths[i + 1..];
  }

  lemma AddOne(a: Tree, b: Tree, n: string)
    requires n in b
    ensures a[n := b[n]] + (b - {n}) == a + b
    ensures |b - {n}| == |b| - 1
  {
    assert (b - {n}).Keys == b.Keys - {n};
  }

  // ---- what callers get ----------------------------------------------------------------------

  predicate Distinct(paths: seq<string>) {
    forall i, j :: 0 <= i < j < |paths| ==> paths[i] != paths[j]
  }

  lemma {:induction false} ExistingDistinct(files: Tree, paths: seq<string>)
    requires Distinct(paths)
    ensures Distinct(Existing(files, paths))
  {
    if paths != [] {
      ExistingDistinct(files, paths[1..]);
      var rest := Existing(files, paths[1..]);
      forall j | 0 <= j < |rest| ensures rest[j] != paths[0] { assert rest[j] in rest; }
    }
  }

  /** A failed update brings back every registered command file exactly when it got as far as backing all of them up. */
  lemma CommandFilesRestoredIff(before: World, after: World, id: string, release: Release, stale: Option<Tree>, configs: Tree, budget: nat)
    requires id in before.registry && RolledBackTo(before, after, id, release, stale, configs, budget) && Distinct(before.registry[id].commands)
    ensures var registered := before.registry[id].commands;
            var existing := Existing(before.commands, registered);
            var ops := DirectoryBackupOps(if id in before.dirs then Some(before.dirs[id]) else None, stale.Some?);
            (forall p :: p in registered && p in before.commands ==> SameAt(before.commands, after.commands, p))
            <==> existing == [] || budget >= ops + |existing|
  {
    var registered := before.registry[id].commands;
    var existing := Existing(before.commands, registered);
    var saved := SavedWithin(before, id, stale.Some?, budget);
    ExistingDistinct(before.commands, registered);
    hide Existing, DirectoryBackupOps, PathsOf, Pick, At;
    if |saved| < |existing| {
      var p := existing[|saved|];
      assert p in existing;
      assert p !in saved;
      assert !SameAt(before.commands, after.commands, p);
    } else {
      assert saved == existing;
    }
  }

  /**
   The directory comes back exactly when no stale backup of another content is in the way, or it was cleared in time; a
   missing one stays missing exactly when there is no stale backup and the new version was not yet placed.
   */
  lemma DirectoryRestoredIff(before: World, after: World, id: string, release: Release, stale: Option<Tree>, configs: Tree, budget: nat)
    requires id in before.registry && RolledBackTo(before, after, id, release, stale, configs, budget)
    ensures after.dirs == before.dirs <==>
            if id in before.dirs then stale.None? || budget >= 2 || stale == Some(before.dirs[id])
            else stale.None? && !Placed(before, id, release, budget)
  {
    hide Existing, SavedWithin, PathsOf, Pick, At, Placed, LeftBehind;
    if id in before.dirs {
      EntryBack(after.dirs, before.dirs, id);
      if id in after.dirs && after.dirs[id] == before.dirs[id] {
        assert after.dirs == after.dirs[id := before.dirs[id]];
      }
    } else if id !in after.dirs {
      assert after.dirs == after.dirs - {id} && before.dirs == before.dirs - {id};
    }
  }

  /** A successful update keeps the installation time, the normalised priority and the disabled state, hooks included. */
  lemma UpdateKeepsUserState(before: World, after: World, id: string, entry: Meta, release: Release, now: string, configs: Tree, event: string)
    requires Replaced(before, after, id, entry, release, now, configs)
    ensures var meta := after.registry[id];
            && meta.version == release.version && meta.commands == PathsOf(release.outputs)
            && (entry.installedAt.Some? ==> meta.installedAt == entry.installedAt)
            && (entry.priority.Some? ==> meta.priority == Some(Number(NormalizePriority(entry.priority.value))))
            && meta.enabled == entry.enabled
    ensures Pick(At(after.events, event), id, false) == Pick(At(before.events, event), id, false)
    ensures var own := Pick(At(after.events, event), id, true);
            own == (if entry.enabled then DeclaredAt(id, release.hooks, event) else Disabled(DeclaredAt(id, release.hooks, event), id))
            && (!entry.enabled ==> forall h :: h in own ==> !h.enabled)
  {
    var renewed := Registered(Unregistered(before.events, id), id, release.hooks);
    var others, own := Pick(At(before.events, event), id, false), DeclaredAt(id, release.hooks, event);
    RegisteredAt(before.events, id, release.hooks, event);
    RegisteredAt(Unregistered(before.events, id), id, release.hooks, event);
    PickAll(others, id, false);
    OwnDeclared(id, release.hooks, event);
    assert At(renewed, event) == others + own;
    PickOfParts(others, own, id, true);
    PickOfParts(others, own, id, false);
    DisabledPick(others + own, id);
    DisabledOwn(others + own, id);
    hide Pick, DeclaredAt, Registered, Unregistered, Disabled;
    assert !entry.enabled ==> At(after.events, event) == Disabled(At(renewed, event), id);
  }

  /** Configuration files lie at the top and are named so. */
  lemma ConfigIff(path: string)
    ensures IsConfig(path) <==> '/' !in path && exists base: string :: path == base + "-config.yml" || path == base + "-config.local.yml"
  {
    if IsConfig(path) {
      var suffix := if EndsWith(path, "-config.yml") then "-config.yml" else "-config.local.yml";
      assert path == path[..|path| - |suffix|] + suffix;
    }
    forall base: string, suffix: string | path == base + suffix ensures EndsWith(path, suffix) {
      assert path[|path| - |suffix|..] == suffix;
    }
  }

  /** The user's configuration files are in the new directory as they were, and what the new version ships besides is as shipped. */
  lemma ConfigurationIsKept(before: World, after: World, id: string, entry: Meta, release: Release, now: string, leftover: Tree, name: string)
    requires id in before.dirs && Replaced(before, after, id, entry, release, now, leftover + Configs(before.dirs[id]))
    ensures var config := '/' !in name && exists base: string :: name == base + "-config.yml" || name == base + "-config.local.yml";
            && (config && name in before.dirs[id] ==> name in after.dirs[id] && after.dirs[id][name] == before.dirs[id][name])
            && (!config && name in release.files && name !in leftover ==> name in after.dirs[id] && after.dirs[id][name] == release.files[name])
  {
    ConfigIff(name);
    hide IsConfig, Arranges, NewCommandFiles, Registered, Unregistered, DisabledEvents, FreshEntry, Renewed, Seen;
  }

  /** The list of installed extensions names the same ones as before, and the updated one. */
  lemma ListIsKept(before: World, after: World, id: string, entry: Meta, release: Release, now: string, configs: Tree, x: string)
    requires ValidId(id) && Replaced(before, after, id, entry, release, now, configs)
    ensures Mentions(after.installed, x) <==> Mentions(before.installed, x) || x == id
  {
    SeenIsFaithful(before.installed);
    ValidIdIsStripped(id);
    var kept := Seen(before.installed)[id := Plain(id)];
    assert Faithful(kept);
    SeenOfArranged(after.installed, kept);
    SeenIsFaithful(after.installed);
    hide Seen, Arranges, Mentions;
  }

  lemma {:induction false} DisabledOwn(hooks: seq<Hook>, id: string)
    ensures Pick(Disabled(hooks, id), id, true) == Disabled(Pick(hooks, id, true), id)
    ensures forall h :: h in Disabled(Pick(hooks, id, true), id) ==> !h.enabled
  {
    if hooks != [] { DisabledOwn(hooks[1..], id); }
  }

  class Project {
    var registry: map<string, Meta>
    var dirs: map<string, Tree>
    var commands: Tree
    var installed: seq<Listed>
    var events: Events
    /** The backup area of this update, which an earlier failed rollback may have left filled. */
    var backup: Backup
    /** How many more operations succeed before one fails. */
    var budget: nat

    constructor (w: World, backup: Backup, budget: nat)
      ensures View() == w && this.backup == backup && this.budget == budget
    {
      registry, dirs, commands, installed, events := w.registry, w.dirs, w.commands, w.installed, w.events;
      this.backup, this.budget := backup, budget;
    }

    function View(): World
      reads this
    {
      World(registry, dirs, commands, installed, events)
    }

    function DirOf(id: string): Option<Tree>
      reads this`dirs
    {
      if id in dirs then Some(dirs[id]) else None
    }

    /** One operation goes through, unless it is the one to fail. */
    method Attempt() returns (ok: bool)
      modifies this`budget
      ensures ok == (old(budget) > 0) && budget == if ok then old(budget) - 1 else 0
    {
      ok := budget > 0;
      if ok {
        budget := budget - 1;
      }
    }

    // ---- backups -------------------------------------------------------------------------------

    /** Copy the directory to a fresh backup, then its configuration files to a place of their own. */
    method BackUpDirectory(id: string) returns (ok: bool)
      modifies this`backup, this`budget
      ensures var ops := DirectoryBackupOps(DirOf(id), old(backup).extension.Some?);
              ok == (old(budget) >= ops) && budget == if ok then old(budget) - ops else 0
      ensures backup.extension == BackedUpDir(DirOf(id), old(backup).extension, old(budget))
      ensures ok ==> backup.configs == old(backup).configs + if id in dirs then Configs(dirs[id]) else map[]
      ensures backup.commands == old(backup).commands
    {
      if id !in dirs {
        assert old(backup).configs + map[] == old(backup).configs;
        return true;
      }
      ok := CopyDirectory(dirs[id]);
      if ok {
        ok := BackUpConfigs(Configs(dirs[id]));
      }
    }

    method CopyDirectory(dir: Tree) returns (ok: bool)
      modifies this`backup, this`budget
      ensures var ops := if old(backup).extension.Some? then 3 else 2;
              ok == (old(budget) >= ops) && budget == if ok then old(budget) - ops else 0
      ensures backup == old(backup).(extension := BackedUpDir(Some(dir), old(backup).extension, old(budget)))
    {
      ok := Attempt();
      if !ok { return; }
      if backup.extension.Some? {
        ok := Attempt();
        if !ok { return; }
        backup := backup.(extension := None);
      }
      ok := Attempt();
      if !ok { return; }
      backup := backup.(extension := Some(dir));
    }

    method BackUpConfigs(configs: Tree) returns (ok: bool)
      modifies this`backup, this`budget
      ensures ok == (old(budget) >= |configs|) && budget == if ok then old(budget) - |configs| else 0
      ensures backup == old(backup).(configs := backup.configs)
      ensures ok ==> backup.configs == old(backup).configs + configs
    {
      var todo := configs;
      while todo != map[]
        invariant backup == old(backup).(configs := backup.configs)
        invariant backup.configs + todo == old(backup).configs + configs
        invariant |todo| <= |configs| && old(budget) - budget == |configs| - |todo|
        decreases |todo|
      {
        var n :| n in todo;
        AddOne(backup.configs, todo, n);
        ok := Attempt();
        if !ok { return; }
        backup := backup.(configs := backup.configs[n := todo[n]]);
        todo := todo - {n};
      }
      assert backup.configs + map[] == backup.configs;
      return true;
    }

    /** Copy the registered command files that exist; `saved` lists those copied before the budget ran out. */
    method BackUpCommands(paths: seq<string>) returns (ok: bool, saved: seq<string>)
      modifies this`backup, this`budget
      ensures saved <= Existing(commands, paths) && HoldsAll(backup.commands, commands, saved)
      ensures |saved| == Min(old(budget), |Existing(commands, paths)|)
      ensures ok == (saved == Existing(commands, paths)) && budget == if ok then old(budget) - |saved| else 0
      ensures backup == old(backup).(commands := backup.commands)
    {
      hide Existing, HoldsAll;
      saved := [];
      var i := 0;
      ghost var existing := Existing(commands, paths);
      ghost var start := backup;
      NothingExisting(backup.commands, commands);
      assert paths[0..] == paths && paths[|paths|..] == [];
      while i < |paths|
        invariant 0 <= i <= |paths|
        invariant existing == saved + Existing(commands, paths[i..])
        invariant old(budget) - budget == |saved|
        invariant backup == start.(commands := backup.commands)
        invariant HoldsAll(backup.commands, commands, saved)
      {
        NextExisting(commands, paths, i);
        if paths[i] in commands {
          ok := Attempt();
          if !ok { return; }
          HoldsOneMore(backup.commands, commands, saved, paths[i]);
          backup := backup.(commands := backup.commands[paths[i] := commands[paths[i]]]);
          saved := saved + [paths[i]];
        }
        i := i + 1;
      }
      assert existing == saved;
      return true, saved;
    }

    // ---- removal -------------------------------------------------------------------------------

    method DeleteCommandFiles(id: string, paths: seq<string>, ghost touched: set<string>) returns (ok: bool)
      requires forall p :: p in paths ==> p in touched
      modifies this`commands, this`budget
      ensures Within(old(View()), View(), id, touched)
      ensures ok ==> forall p :: if p in paths then p !in commands else SameAt(old(commands), commands, p)
      ensures var ops := |Present(old(commands), paths)|; ok == (old(budget) >= ops) && budget == if ok then old(budget) - ops else 0
    {
      ghost var start := commands;
      for i := 0 to |paths|
        invariant forall p :: p !in paths ==> SameAt(start, commands, p)
        invariant forall j :: 0 <= j < i ==> paths[j] !in commands
        invariant old(budget) - budget == |Present(start, paths)| - |Present(commands, paths)|
      {
        if paths[i] in commands {
          assert paths[i] in Present(commands, paths);
          ok := Attempt();
          if !ok { return; }
          assert Present(commands - {paths[i]}, paths) == Present(commands, paths) - {paths[i]};
          commands := commands - {paths[i]};
        }
      }
      assert Present(commands, paths) == {};
      return true;
    }

    method DropFile(id: string, name: string, ghost touched: set<string>) returns (ok: bool)
      requires id in dirs
      modifies this`dirs, this`budget
      ensures Within(old(View()), View(), id, touched) && id in dirs
      ensures dirs[id] == if ok then old(dirs)[id] - {name} else old(dirs)[id]
      ensures !ok ==> budget == 0
    {
      ok := Attempt();
      if !ok { return; }
      dirs := dirs[id := dirs[id] - {name}];
    }

    /** Everything in the directory but the user's configuration. */
    method ClearDirectory(id: string, ghost touched: set<string>) returns (ok: bool)
      modifies this`dirs, this`budget
      ensures Within(old(View()), View(), id, touched)
      ensures ok && id in dirs ==> id in old(dirs) && dirs[id] == Configs(old(dirs)[id])
      ensures !ok ==> budget == 0
      ensures id !in old(dirs) ==> ok && dirs == old(dirs) && budget == old(budget)
    {
      hide Within, IsConfig;
      ghost var w0 := View();
      WithinSelf(w0, id, touched);
      if id !in dirs {
        return true;
      }
      while exists n :: n in dirs[id] && !IsConfig(n)
        invariant id in dirs && Configs(dirs[id]) == Configs(old(dirs)[id])
        invariant Within(w0, View(), id, touched)
        decreases |dirs[id]|
      {
        var n :| n in dirs[id] && !IsConfig(n);
        ghost var w := View();
        assert |dirs[id] - {n}| < |dirs[id]| by { assert (dirs[id] - {n}).Keys == dirs[id].Keys - {n}; }
        ok := DropFile(id, n, touched);
        WithinTrans(w0, w, View(), id, touched);
        if !ok { return; }
      }
      assert dirs[id] == Configs(dirs[id]);
      return true;
    }

    method UnregisterHooks(id: string, ghost touched: set<string>) returns (ok: bool)
      requires id != ""
      modifies this`installed, this`events, this`budget
      ensures Within(old(View()), View(), id, touched)
      ensures ok ==> events == Unregistered(old(events), id) && Arranges(installed, Kept(old(installed), "", id))
      ensures ok == (old(budget) >= 2) && budget == if ok then old(budget) - 2 else 0
    {
      UnregisteredAt(events, id);
      hide Unregistered, Pick, Arranges, Kept;
      ok := Attempt();
      if !ok { return; }
      installed := SanitizeInstalledList(installed, "", id);
      ok := Attempt();
      if !ok { return; }
      events := Unregistered(events, id);
    }

    method RemoveKeepingConfig(id: string, ghost touched: set<string>) returns (ok: bool)
      requires id != "" && id in registry && forall p :: p in registry[id].commands ==> p in touched
      modifies this`registry, this`dirs, this`commands, this`installed, this`events, this`budget
      ensures Within(old(View()), View(), id, touched)
      ensures ok ==> registry == old(registry) - {id} && events == Unregistered(old(events), id)
      ensures ok ==> Arranges(installed, Kept(old(installed), "", id))
      ensures ok ==> forall p :: if p in old(registry)[id].commands then p !in commands else SameAt(old(commands), commands, p)
      ensures !ok ==> budget == 0
      ensures var ops := |Present(old(commands), old(registry)[id].commands)| + 3;
              id !in old(dirs) ==> id !in dirs && ok == (old(budget) >= ops) && budget == if ok then old(budget) - ops else 0
    {
      hide Within, Unregistered, SameAt, Arranges, Kept;
      ghost var w0 := View();
      ok := DeleteCommandFiles(id, registry[id].commands, touched);
      if !ok { return; }
      ghost var w1 := View();
      ok := ClearDirectory(id, touched);
      ghost var w2 := View();
      WithinTrans(w0, w1, w2, id, touched);
      if !ok { return; }
      ok := UnregisterHooks(id, touched);
      ghost var w3 := View();
      WithinTrans(w0, w2, w3, id, touched);
      if !ok { return; }
      ok := SetEntry(id, None, touched);
      WithinTrans(w0, w3, View(), id, touched);
    }

    method SetEntry(id: string, entry: Option<Meta>, ghost touched: set<string>) returns (ok: bool)
      requires entry.Some? ==> forall p :: p in entry.value.commands ==> p in touched
      modifies this`registry, this`budget
      ensures Within(old(View()), View(), id, touched)
      ensures registry == if !ok then old(registry) else if entry.Some? then old(registry)[id := entry.value] else old(registry) - {id}
      ensures ok == (old(budget) >= 1) && budget == if ok then old(budget) - 1 else 0
    {
      ok := Attempt();
      if !ok { return; }
      registry := if entry.Some? then registry[id := entry.value] else registry - {id};
    }

    // ---- installation --------------------------------------------------------------------------

    method PlaceFiles(id: string, files: Tree, ghost touched: set<string>) returns (ok: bool)
      modifies this`dirs, this`budget
      ensures Within(old(View()), View(), id, touched)
      ensures ok ==> id in dirs && dirs[id] == files
      ensures !ok ==> budget == 0
      ensures id !in old(dirs) ==> ok == (old(budget) >= 1) && (id in dirs <==> ok)
    {
      if id in dirs {
        ok := Attempt();
        if !ok { return; }
        dirs := dirs - {id};
      }
      ok := Attempt();
      if !ok { return; }
      dirs := dirs[id := files];
    }

    method WriteCommandFiles(id: string, outputs: seq<Output>, ghost touched: set<string>) returns (ok: bool)
      requires forall p :: p in PathsOf(outputs) ==> p in touched
      modifies this`commands, this`budget
      ensures Within(old(View()), View(), id, touched)
      ensures ok ==> commands == Overwritten(old(commands), outputs)
      ensures !ok ==> budget == 0
    {
      ghost var start := commands;
      assert outputs[0..] == outputs;
      for i := 0 to |outputs|
        invariant Overwritten(commands, outputs[i..]) == Overwritten(start, outputs)
        invariant forall p :: p !in touched ==> SameAt(start, commands, p)
      {
        ok := Attempt();
        if !ok { return; }
        assert outputs[i..][1..] == outputs[i + 1..];
        assert PathsOf(outputs)[i] in PathsOf(outputs);
        commands := commands[outputs[i].path := outputs[i].content];
      }
      return true;
    }

    method RegisterHooks(id: string, hooks: Manifest, ghost touched: set<string>) returns (ok: bool)
      requires ValidId(id)
      modifies this`installed, this`events, this`budget
      ensures Within(old(View()), View(), id, touched)
      ensures ok ==> events == Registered(old(events), id, hooks) && Arranges(installed, Kept(old(installed), id, ""))
      ensures !ok ==> budget == 0
    {
      RegisteredOthers(events, id, hooks);
      hide Registered, Pick, Arranges, Kept;
      ok := Attempt();
      if !ok { return; }
      installed := SanitizeInstalledList(installed, id, "");
      ok := Attempt();
      if !ok { return; }
      events := Registered(events, id, hooks);
    }

    method InstallRelease(id: string, release: Release, now: string, ghost touched: set<string>) returns (ok: bool)
      requires ValidId(id) && id !in registry && forall p :: p in PathsOf(release.outputs) ==> p in touched
      modifies this`registry, this`dirs, this`commands, this`installed, this`events, this`budget
      ensures Within(old(View()), View(), id, touched)
      ensures ok ==> registry == old(registry)[id := FreshEntry(release, now)]
      ensures ok ==> id in dirs && dirs[id] == release.files
      ensures ok ==> events == Registered(old(events), id, release.hooks) && commands == Overwritten(old(commands), release.outputs)
      ensures ok ==> Arranges(installed, Kept(old(installed), id, ""))
      ensures !ok ==> budget == 0 || !release.acceptable
      ensures id !in old(dirs) ==> (id in dirs <==> release.acceptable && old(budget) >= 2) && (id in dirs ==> dirs[id] == release.files)
    {
      hide Within, Registered, Overwritten, Arranges, Kept;
      ghost var w0 := View();
      WithinSelf(w0, id, touched);
      ok := Attempt();
      if !ok || !release.acceptable {
        return false;
      }
      ok := PlaceFiles(id, release.files, touched);
      if !ok { return; }
      ghost var w1 := View();
      ok := WriteCommandFiles(id, release.outputs, touched);
      ghost var w2 := View();
      WithinTrans(w0, w1, w2, id, touched);
      if !ok { return; }
      ok := RegisterHooks(id, release.hooks, touched);
      ghost var w3 := View();
      WithinTrans(w0, w2, w3, id, touched);
      if !ok { return; }
      ok := SetEntry(id, Some(FreshEntry(release, now)), touched);
      WithinTrans(w0, w3, View(), id, touched);
    }

    method PutFile(id: string, name: string, content: string, ghost touched: set<string>) returns (ok: bool)
      requires id in dirs
      modifies this`dirs, this`budget
      ensures Within(old(View()), View(), id, touched) && id in dirs
      ensures dirs[id] == if ok then old(dirs)[id][name := content] else old(dirs)[id]
      ensures !ok ==> budget == 0
    {
      ok := Attempt();
      if !ok { return; }
      dirs := dirs[id := dirs[id][name := content]];
    }

    /** The user's configuration goes back into the new directory. */
    method RestoreConfigs(id: string, ghost touched: set<string>) returns (ok: bool)
      requires id in dirs
      modifies this`dirs, this`budget
      ensures Within(old(View()), View(), id, touched)
      ensures id in dirs && (ok ==> dirs[id] == old(dirs)[id] + backup.configs)
      ensures LeftBehind(dirs[id], old(dirs)[id], backup.configs)
      ensures !ok ==> budget == 0
    {
      hide Within, LeftBehind, Restoring;
      var todo := backup.configs;
      ghost var w0, files := View(), dirs[id];
      WithinSelf(w0, id, touched);
      RestoringStarts(files, todo);
      RestoringEnds(files, todo, files, todo);
      while todo != map[]
        invariant id in dirs && Restoring(dirs[id], todo, files, backup.configs)
        invariant Within(w0, View(), id, touched)
        decreases |todo|
      {
        var n :| n in todo;
        RestoringEnds(dirs[id], todo, files, backup.configs);
        RestoringGoesOn(dirs[id], todo, files, backup.configs, n);
        ghost var w := View();
        ok := PutFile(id, n, todo[n], touched);
        WithinTrans(w0, w, View(), id, touched);
        if !ok { return; }
        todo := todo - {n};
      }
      RestoringEnds(dirs[id], todo, files, backup.configs);
      return true;
    }

    method RestoreMetadata(id: string, entry: Meta, ghost touched: set<string>) returns (ok: bool)
      requires id in registry && forall p :: p in registry[id].commands ==> p in touched
      modifies this`registry, this`events, this`budget
      ensures Within(old(View()), View(), id, touched)
      ensures ok ==> registry == old(registry)[id := Renewed(old(registry)[id], entry)]
      ensures ok ==> events == if entry.enabled then old(events) else DisabledEvents(old(events), id)
      ensures !ok ==> budget == 0
    {
      ok := SetEntry(id, Some(Renewed(registry[id], entry)), touched);
      if !ok { return; }
      if !entry.enabled {
        ok := Attempt();
        if !ok { return; }
        DisabledOthers(events, id);
        hide Pick, DisabledEvents;
        events := DisabledEvents(events, id);
      }
    }

    /** After step 8 the configuration files, then step 9: the metadata. */
    method RestoreUserState(id: string, entry: Meta, ghost touched: set<string>) returns (ok: bool)
      requires id in dirs && id in registry && forall p :: p in registry[id].commands ==> p in touched
      modifies this`registry, this`dirs, this`events, this`budget
      ensures Within(old(View()), View(), id, touched)
      ensures id in dirs && (ok ==> dirs[id] == old(dirs)[id] + backup.configs)
      ensures LeftBehind(dirs[id], old(dirs)[id], backup.configs)
      ensures ok ==> registry == old(registry)[id := Renewed(old(registry)[id], entry)]
      ensures ok ==> events == if entry.enabled then old(events) else DisabledEvents(old(events), id)
      ensures !ok ==> budget == 0
    {
      hide Within, LeftBehind, DisabledEvents;
      ghost var w0 := View();
      ok := RestoreConfigs(id, touched);
      ghost var w1 := View();
      if !ok { return; }
      ok := RestoreMetadata(id, entry, touched);
      WithinTrans(w0, w1, View(), id, touched);
    }

    // ---- the update ----------------------------------------------------------------------------

    /** Remove the old version and install the new one. */
    method Reinstall(id: string, entry: Meta, release: Release, now: string, ghost touched: set<string>) returns (ok: bool)
      requires ValidId(id) && id in registry && registry[id] == entry
      requires (forall p :: p in entry.commands ==> p in touched) && forall p :: p in PathsOf(release.outputs) ==> p in touched
      modifies this`registry, this`dirs, this`commands, this`installed, this`events, this`budget
      ensures Within(old(View()), View(), id, touched)
      ensures ok ==> Reinstalled(old(View()), View(), id, entry, release, now)
      ensures !ok ==> budget == 0 || !release.acceptable
      ensures id !in old(dirs) ==>
                && (id in dirs <==> release.acceptable && old(budget) >= |Present(old(commands), entry.commands)| + 5)
                && (id in dirs ==> dirs[id] == release.files)
    {
      hide Within, Registered, Unregistered, Overwritten, Present, PathsOf, Reinstalled, Arranges, Kept, SameAt;
      ghost var w0 := View();
      ok := RemoveKeepingConfig(id, touched);
      if !ok { return; }
      ghost var w1 := View();
      ok := InstallRelease(id, release, now, touched);
      WithinTrans(w0, w1, View(), id, touched);
      if ok { ReinstalledSum(w0, w1, View(), id, entry, release, now); }
    }

    /** Steps 5 to 10: fetch and check the archive, remove, install, give back configuration and metadata, drop the backup. */
    method Replace(id: string, entry: Meta, release: Release, now: string, ghost touched: set<string>) returns (ok: bool)
      requires ValidId(id) && id in registry && registry[id] == entry
      requires (forall p :: p in entry.commands ==> p in touched) && forall p :: p in PathsOf(release.outputs) ==> p in touched
      modifies this
      ensures Within(old(View()), View(), id, touched)
      ensures backup == if ok then NO_BACKUP else old(backup)
      ensures ok ==> Replaced(old(View()), View(), id, entry, release, now, old(backup).configs)
      ensures !ok ==> budget == 0 || release.archiveId != Some(id) || !release.acceptable
      ensures id !in old(dirs) ==>
                && (id in dirs <==> release.archiveId == Some(id) && release.acceptable
                                    && old(budget) >= |Present(old(commands), entry.commands)| + 6)
                && (id in dirs ==> LeftBehind(dirs[id], release.files, old(backup).configs))
    {
      hide Within, Registered, Unregistered, DisabledEvents, LeftBehind, Present, Replaced;
      JustPlaced(release.files, backup.configs);
      ghost var w0 := View();
      WithinSelf(w0, id, touched);
      ok := Attempt();
      if !ok || release.archiveId != Some(id) {
        return false;
      }
      ok := Reinstall(id, entry, release, now, touched);
      ghost var w1 := View();
      if !ok { return; }
      ok := RestoreUserState(id, entry, touched);
      WithinTrans(w0, w1, View(), id, touched);
      if !ok { return; }
      ok := Attempt();  // delete the downloaded archive
      if !ok { return; }
      ok := Attempt();
      if !ok { return; }
      backup := NO_BACKUP;
      WithinKeepsDirs(w0, View(), id, touched);
      ReplacedSum(w0, w1, View(), id, entry, release, now, old(backup).configs);
    }

    /** Put everything back as the backups have it. `hooks` and `list` are None when the configuration was not read yet. */
    method Rollback(id: string, entry: Meta, saved: seq<string>, hooks: Option<Events>, list: seq<Listed>)
      requires forall p :: p in saved ==> p in backup.commands
      modifies this`registry, this`dirs, this`commands, this`events, this`installed, this`backup
      ensures registry == old(registry)[id := entry]
      ensures dirs == if old(backup).extension.Some? then old(dirs)[id := old(backup).extension.value] else old(dirs)
      ensures commands == RolledBack(old(commands), if id in old(registry) then old(registry)[id].commands else [], saved, old(backup).commands)
      ensures if hooks.None? then events == old(events) && installed == old(installed)
              else events == WithOwn(old(events), hooks.value, id) && installed == list
      ensures backup == NO_BACKUP
    {
      hide RolledBack, WithOwn;
      if backup.extension.Some? {
        dirs := dirs[id := backup.extension.value];
      }
      RollBackCommands(if id in registry then registry[id].commands else [], saved);
      if hooks.Some? {
        events := WithOwn(events, hooks.value, id);
        if installed != list {
          installed := list;
        }
      }
      registry := registry[id := entry];
      backup := NO_BACKUP;
    }

    /** Delete registered files that were not backed up, then copy back those that were. */
    method RollBackCommands(registered: seq<string>, saved: seq<string>)
      requires forall p :: p in saved ==> p in backup.commands
      modifies this`commands
      ensures commands == RolledBack(old(commands), registered, saved, backup.commands)
    {
      hide Unsaved, CopiesOf;
      ghost var start := commands;
      NothingDone(start, saved, backup.commands);
      assert registered[..0] == [] && registered[..|registered|] == registered;
      for i := 0 to |registered|
        invariant commands == start - Unsaved(registered[..i], saved)
      {
        DeleteOneMore(start, registered, saved, i);
        if registered[i] in commands && registered[i] !in saved {
          commands := commands - {registered[i]};
        }
      }
      ghost var kept := commands;
      NothingDone(kept, saved, backup.commands);
      assert saved[..0] == [] && saved[..|saved|] == saved;
      for i := 0 to |saved|
        invariant commands == kept + CopiesOf(saved[..i], backup.commands)
      {
        assert saved[i] in saved;
        CopyOneMore(kept, saved, backup.commands, i);
        commands := commands[saved[i] := backup.commands[saved[i]]];
      }
    }

    /** Steps 1 to 3: back up the directory, its configuration and the registered command files. */
    method BackUp(id: string) returns (ok: bool, saved: seq<string>)
      requires id in registry
      modifies this`backup, this`budget
      ensures saved == SavedWithin(View(), id, old(backup).extension.Some?, old(budget))
      ensures HoldsAll(backup.commands, commands, saved) && forall p :: p in saved ==> p in registry[id].commands
      ensures backup.extension == BackedUpDir(DirOf(id), old(backup).extension, old(budget))
      ensures var ops, existing := DirectoryBackupOps(DirOf(id), old(backup).extension.Some?), Existing(commands, registry[id].commands);
              if ok then saved == existing && old(budget) == ops + |existing| + budget
              else budget == 0 && (id in dirs || old(budget) < |existing|)
      ensures ok ==> backup.configs == old(backup).configs + if id in dirs then Configs(dirs[id]) else map[]
    {
      hide Existing, HoldsAll, SavedWithin, DirectoryBackupOps, BackedUpDir, Configs;
      ghost var stale, start := backup.extension.Some?, budget;
      saved := [];
      NoDirectoryToBackUp(stale);
      ok := BackUpDirectory(id);
      if !ok {
        NothingExisting(backup.commands, commands);
        SavedNothing(View(), id, stale, start);
        return;
      }
      ghost var left := budget;
      ok, saved := BackUpCommands(registry[id].commands);
      SavedSome(View(), id, stale, start, saved);
      if !ok { CutShort(saved, Existing(commands, registry[id].commands), left); }
    }

    /** Steps 1 to 10. On failure, what a rollback needs to know. */
    method TryUpdate(id: string, release: Release, now: string, ghost stale: Option<Tree>, ghost start: nat)
        returns (ok: bool, saved: seq<string>, hooks: Option<Events>)
      requires ValidId(id) && id in registry && backup.extension == stale && budget == start
      modifies this
      ensures ok ==> Replaced(old(View()), View(), id, old(registry)[id], release, now,
                              old(backup).configs + (if id in old(dirs) then Configs(old(dirs)[id]) else map[]))
      ensures ok ==> backup == NO_BACKUP
      ensures !ok ==> CanRollBack(old(View()), View(), id, release, saved, backup.commands, hooks)
      ensures !ok ==> saved == SavedWithin(old(View()), id, stale.Some?, start) && backup.extension == BackedUpDir(old(DirOf(id)), stale, start)
      ensures !ok && hooks.Some? ==> start >= DirectoryBackupOps(old(DirOf(id)), stale.Some?)
      ensures !ok ==> NewDirectory(old(View()), View(), id, release, old(backup).configs, start)
      ensures !ok ==> budget == 0 || release.archiveId != Some(id) || !release.acceptable
    {
      hide Within, Replaced, Existing, HoldsAll, OwnEvents, PathsOf, SavedWithin, DirectoryBackupOps, BackedUpDir, CanRollBack, LeftBehind,
           Present, NewDirectory, Configs;
      var entry := registry[id];
      ghost var touched := (set p | p in entry.commands) + (set p | p in PathsOf(release.outputs));
      ghost var before, configs := View(), backup.configs;
      hooks := None;
      NoDirectoryToBackUp(stale.Some?);
      assert configs + map[] == configs;
      ok, saved := BackUp(id);
      if !ok {
        NotYetPlaced(before, id, release, configs, start);
        NothingToRollBack(before, id, release, saved, backup.commands);
        return;
      }
      hooks := Some(OwnEvents(events, id));
      ghost var copies, left := backup.commands, budget;
      ok := Replace(id, entry, release, now, touched);
      if !ok { PlacedOrNot(before, View(), id, release, configs, backup.configs, start, left); }
      AllToRollBack(before, View(), id, release, saved, copies);
    }

    /**
     The update of one extension. When it fails, the registry, the directory, the installed list and the hooks are
     as before; of the registered command files, those backed up before the failure come back, and those not yet
     backed up are deleted by the rollback. A stale directory backup is restored in place of the directory when the
     failure comes before it is cleared, and where there was no directory the new version's stays once it is placed.
     It fails only if an operation does or the archive is not acceptable.
     */
    method Update(id: string, release: Release, now: string) returns (ok: bool)
      requires ValidId(id) && id in registry
      modifies this
      ensures ok ==> Replaced(old(View()), View(), id, old(registry)[id], release, now,
                              old(backup).configs + (if id in old(dirs) then Configs(old(dirs)[id]) else map[]))
      ensures !ok ==> RolledBackTo(old(View()), View(), id, release, old(backup).extension, old(backup).configs, old(budget))
      ensures backup == NO_BACKUP
      ensures !ok ==> budget == 0 || release.archiveId != Some(id) || !release.acceptable
    {
      ghost var w0 := View();
      ghost var stale, configs, start := backup.extension, backup.configs, budget;
      var entry, list := registry[id], installed;
      hide Replaced, HoldsAll, RolledBack, WithOwn, PathsOf, RolledBackTo, SavedWithin, Within;
      var saved, hooks;
      ok, saved, hooks := TryUpdate(id, release, now, stale, start);
      if !ok {
        ghost var w1, copies := View(), backup.commands;
        HoldsCopies(copies, w0.commands, saved);
        Rollback(id, entry, saved, hooks, list);
        RollbackSum(w0, w1, View(), id, release, stale, configs, start, saved, copies, hooks);
      }
    }
  }
}

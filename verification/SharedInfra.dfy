/**
 Installing the shared scripts and templates next to files users own. A manifest of hashes tells the files the
 tool wrote from those it merely found; what differs from the tool's last version stays untouched.
 */
module SharedInfra {
  import opened Wrappers

  /** The parts of a path below the project root. */
  type Path = seq<string>

  datatype Node = File(content: string) | Directory | Link

  type Disk = map<Path, Node>

  /** Hashes by path; recovered paths were found on disk, not written. */
  datatype State = State(disk: Disk, manifest: map<Path, string>, recovered: set<Path>)

  datatype Asset = Asset(path: Path, content: string)

  /** Files to install under directories that are made first. */
  datatype Group = Group(roots: seq<Path>, assets: seq<Asset>)

  datatype Mode = Default | RefreshManaged | Force

  // ---- paths ---------------------------------------------------------------------------------

  datatype Walk = Clear | Symlinked | Blocked

  /** Along a directory path, from its i-th part on: stop at the first symlink or file. */
  function WalkFrom(disk: Disk, dir: Path, i: nat): Walk
    requires 0 < i
    decreases |dir| - i
  {
    if i > |dir| then Clear
    else if dir[..i] in disk && disk[dir[..i]].Link? then Symlinked
    else if dir[..i] in disk && disk[dir[..i]].File? then Blocked
    else WalkFrom(disk, dir, i + 1)
  }

  function WalkTo(disk: Disk, dir: Path): Walk {
    WalkFrom(disk, dir, 1)
  }

  function Parent(path: Path): Path {
    if path == [] then [] else path[..|path| - 1]
  }

  /** Make the missing directories along a path. */
  function MakeDirs(disk: Disk, dir: Path): (r: Disk)
    ensures forall p :: p in disk ==> p in r && r[p] == disk[p]
    ensures forall p :: p in r && p !in disk ==> r[p].Directory? && p != [] && p <= dir
    ensures forall i :: 0 < i <= |dir| ==> dir[..i] in r
    decreases |dir|
  {
    if dir == [] then disk
    else
      var made := MakeDirs(disk, Parent(dir));
      assert forall i :: 0 < i < |dir| ==> dir[..i] == Parent(dir)[..i];
      assert dir[..|dir|] == dir;
      if dir in made then made else made[dir := Directory]
  }

  lemma {:induction false} WalkIsClear(disk: Disk, dir: Path, i: nat)
    requires 0 < i
    ensures WalkFrom(disk, dir, i) == Clear <==> forall j :: i <= j <= |dir| ==> dir[..j] !in disk || disk[dir[..j]].Directory?
    decreases |dir| - i
  {
    if i <= |dir| { WalkIsClear(disk, dir, i + 1); }
  }

  // ---- planning ------------------------------------------------------------------------------

  datatype Plan = Plan(disk: Disk, manifest: map<Path, string>, recovered: set<Path>, writes: seq<Asset>, aborted: bool)

  /** Still as the tool wrote it: the recorded hash fits and was recorded when writing. */
  predicate Managed(hash: string -> string, prior: map<Path, string>, recovered: set<Path>, disk: Disk, path: Path) {
    && path in prior && prior[path] != "" && path in disk && disk[path].File?
    && path !in recovered && hash(disk[path].content) == prior[path]
  }

  predicate Overwrites(hash: string -> string, prior: map<Path, string>, mode: Mode, plan: Plan, path: Path) {
    path !in plan.disk || mode.Force? || (mode.RefreshManaged? && Managed(hash, prior, plan.recovered, plan.disk, path))
  }

  /** Plan one file: passed over below a symlink, written, or left alone and, if unknown, recorded as found. */
  function PlanAsset(hash: string -> string, prior: map<Path, string>, mode: Mode, plan: Plan, a: Asset): Plan {
    if plan.aborted then plan
    else
      match WalkTo(plan.disk, Parent(a.path))
      case Symlinked => plan
      case Blocked => plan.(aborted := true)
      case Clear =>
        if a.path in plan.disk && plan.disk[a.path].Link? then plan
        else if Overwrites(hash, prior, mode, plan, a.path) then
          plan.(disk := MakeDirs(plan.disk, Parent(a.path)), writes := plan.writes + [a])
        else if plan.disk[a.path].File? && a.path !in prior then
          plan.(manifest := plan.manifest[a.path := hash(plan.disk[a.path].content)], recovered := plan.recovered + {a.path})
        else plan
  }

  function PlanAssets(hash: string -> string, prior: map<Path, string>, mode: Mode, plan: Plan, assets: seq<Asset>): Plan
    decreases assets
  {
    if assets == [] then plan else PlanAssets(hash, prior, mode, PlanAsset(hash, prior, mode, plan, assets[0]), assets[1..])
  }

  /** The directories of a group, in order; a symlink on the way makes the whole group pass. */
  function MakeRoots(disk: Disk, roots: seq<Path>): (Walk, Disk)
    decreases roots
  {
    if roots == [] then (Clear, disk)
    else if WalkTo(disk, roots[0]) != Clear then (WalkTo(disk, roots[0]), disk)
    else MakeRoots(MakeDirs(disk, roots[0]), roots[1..])
  }

  function PlanGroup(hash: string -> string, prior: map<Path, string>, mode: Mode, plan: Plan, g: Group): Plan {
    if plan.aborted then plan
    else
      var (walk, disk) := MakeRoots(plan.disk, g.roots);
      match walk
      case Symlinked => plan.(disk := disk)
      case Blocked => plan.(disk := disk, aborted := true)
      case Clear => PlanAssets(hash, prior, mode, plan.(disk := disk), g.assets)
  }

  function PlanGroups(hash: string -> string, prior: map<Path, string>, mode: Mode, plan: Plan, groups: seq<Group>): Plan
    decreases groups
  {
    if groups == [] then plan else PlanGroups(hash, prior, mode, PlanGroup(hash, prior, mode, plan, groups[0]), groups[1..])
  }

  function PlanAll(hash: string -> string, s: State, mode: Mode, groups: seq<Group>): Plan {
    PlanGroups(hash, s.manifest, mode, Plan(s.disk, s.manifest, s.recovered, [], false), groups)
  }

  // ---- writing -------------------------------------------------------------------------------

  /** Write one file, checking its path once more, and record its hash as the tool's own. */
  function WriteAsset(hash: string -> string, plan: Plan, a: Asset): Plan {
    if plan.aborted then plan
    else
      match WalkTo(plan.disk, Parent(a.path))
      case Symlinked => plan
      case Blocked => plan.(aborted := true)
      case Clear =>
        if a.path in plan.disk && !plan.disk[a.path].File? then plan.(aborted := true)
        else plan.(disk := MakeDirs(plan.disk, Parent(a.path))[a.path := File(a.content)],
                   manifest := plan.manifest[a.path := hash(a.content)],
                   recovered := plan.recovered - {a.path})
  }

  function WriteAssets(hash: string -> string, plan: Plan, writes: seq<Asset>): Plan
    decreases writes
  {
    if writes == [] then plan else WriteAssets(hash, WriteAsset(hash, plan, writes[0]), writes[1..])
  }

  function Done(hash: string -> string, s: State, mode: Mode, groups: seq<Group>): Plan {
    var plan := PlanAll(hash, s, mode, groups);
    WriteAssets(hash, plan, plan.writes)
  }

  /** An aborted run leaves the manifest file as it was. */
  function Install(hash: string -> string, s: State, mode: Mode, groups: seq<Group>): State {
    var done := Done(hash, s, mode, groups);
    if done.aborted then s.(disk := done.disk) else State(done.disk, done.manifest, done.recovered)
  }

  // ---- refreshing the templates --------------------------------------------------------------

  datatype Template = Template(name: string, content: string)

  function TemplateAssets(root: Path, templates: seq<Template>): (assets: seq<Asset>)
    ensures |assets| == |templates|
    ensures forall i :: 0 <= i < |assets| ==> assets[i] == Asset(root + [templates[i].name], templates[i].content)
  {
    if templates == [] then [] else [Asset(root + [templates[0].name], templates[0].content)] + TemplateAssets(root, templates[1..])
  }

  /** What refreshing overwrites without force: a tracked file whose recorded hash still fits, whoever recorded it. */
  predicate RefreshOverwrites(hash: string -> string, s: State, path: Path) {
    path in s.disk && s.disk[path].File? && path in s.manifest && hash(s.disk[path].content) == s.manifest[path]
  }

  /** The templates that are written: the missing and the unchanged tracked ones. */
  function Refreshed(hash: string -> string, s: State, assets: seq<Asset>): (writes: seq<Asset>)
    ensures forall a :: a in writes <==> a in assets && (a.path !in s.disk || RefreshOverwrites(hash, s, a.path))
  {
    if assets == [] then []
    else
      assert assets == [assets[0]] + assets[1..];
      (if assets[0].path !in s.disk || RefreshOverwrites(hash, s, assets[0].path) then [assets[0]] else []) + Refreshed(hash, s, assets[1..])
  }

  predicate LinkInPlace(disk: Disk, assets: seq<Asset>) {
    exists a :: a in assets && a.path in disk && disk[a.path].Link?
  }

  /** A directory that cannot be used or a symlink in any template's place stops the refresh before anything is written. */
  predicate RefreshAborts(s: State, root: Path, templates: seq<Template>) {
    WalkTo(s.disk, root) != Clear || LinkInPlace(s.disk, TemplateAssets(root, templates))
  }

  function RefreshTemplates(hash: string -> string, s: State, root: Path, templates: seq<Template>): State {
    var disk := if WalkTo(s.disk, root) == Clear then MakeDirs(s.disk, root) else s.disk;
    if RefreshAborts(s, root, templates) then s.(disk := disk)
    else
      var writes := Refreshed(hash, s, TemplateAssets(root, templates));
      var done := WriteAssets(hash, Plan(disk, s.manifest, s.recovered, writes, false), writes);
      if done.aborted then s.(disk := done.disk) else State(done.disk, done.manifest, done.recovered)
  }

  // ---- what planning keeps -------------------------------------------------------------------

  /** The path may be written: all directories are there, and at most a file is in its place. */
  ghost predicate Ready(disk: Disk, path: Path) {
    && path != []
    && (forall i :: 0 < i < |path| ==> path[..i] in disk && disk[path[..i]].Directory?)
    && (path in disk ==> disk[path].File?)
  }

  /** Whether an install in this mode is to write a path: it is missing, a refresh finds the tool's own version, or any file is to go. */
  ghost predicate Due(hash: string -> string, s: State, mode: Mode, path: Path) {
    || path !in s.disk
    || (mode.RefreshManaged? && Managed(hash, s.manifest, s.recovered, s.disk, path))
    || (mode.Force? && s.disk[path].File?)
  }

  /** No part of the path is a symlink. */
  ghost predicate Unlinked(disk: Disk, path: Path) {
    forall i :: 0 < i <= |path| && path[..i] in disk ==> !disk[path[..i]].Link?
  }

  /** No asset's path lies below another's. */
  ghost predicate Sane(assets: seq<Asset>) {
    && (forall a :: a in assets ==> a.path != [])
    && forall a, b :: a in assets && b in assets ==> !(a.path < b.path)
  }

  function AssetsOf(groups: seq<Group>): seq<Asset> {
    if groups == [] then [] else groups[0].assets + AssetsOf(groups[1..])
  }

  /** No group's directories lie at or below an asset's path. */
  ghost predicate SaneRoots(groups: seq<Group>, assets: seq<Asset>) {
    forall g, r, a :: g in groups && r in g.roots && a in assets ==> !(a.path <= r)
  }

  /** What is to be installed fits: no asset lies at or below another or above a directory to make, and none is to replace a directory. */
  ghost predicate Placeable(s: State, mode: Mode, groups: seq<Group>) {
    && Sane(AssetsOf(groups)) && SaneRoots(groups, AssetsOf(groups))
    && (mode.Force? ==> NoneReplacesDirectory(s.disk, AssetsOf(groups)))
  }

  ghost predicate NoneReplacesDirectory(disk: Disk, assets: seq<Asset>) {
    forall a :: a in assets && a.path in disk ==> !disk[a.path].Directory?
  }

  /** So far: only directories were made, only found files were recorded, and the planned paths are ready and due. */
  ghost predicate PlanOk(hash: string -> string, s: State, mode: Mode, all: seq<Asset>, plan: Plan) {
    && (forall p :: p in s.disk ==> p in plan.disk && plan.disk[p] == s.disk[p])
    && (forall p :: p in plan.disk && p !in s.disk ==>
          plan.disk[p].Directory? && Unlinked(s.disk, p) && forall a :: a in all ==> !(a.path <= p))
    && (forall p :: p in s.manifest ==> p in plan.manifest && plan.manifest[p] == s.manifest[p] && (p in plan.recovered <==> p in s.recovered))
    && (forall p :: p in plan.manifest && p !in s.manifest ==>
          p in plan.recovered && p in s.disk && s.disk[p].File? && plan.manifest[p] == hash(s.disk[p].content))
    && (forall a :: a in plan.writes ==> a in all && Ready(plan.disk, a.path) && Due(hash, s, mode, a.path))
  }

  lemma ReadyAfterDirs(disk: Disk, dir: Path, path: Path)
    requires Ready(disk, path) && !(path <= dir)
    ensures Ready(MakeDirs(disk, dir), path)
  {
  }

  lemma ClearIsUnlinked(sub: Disk, disk: Disk, dir: Path, p: Path)
    requires forall q :: q in sub ==> q in disk && disk[q] == sub[q]
    requires WalkTo(disk, dir) == Clear && p <= dir
    ensures Unlinked(sub, p)
  {
    WalkIsClear(disk, dir, 1);
    forall i | 0 < i <= |p| && p[..i] in sub ensures !sub[p[..i]].Link? {
      assert p[..i] == dir[..i];
    }
  }

  /** A directory made on a clear way is below no asset and reached through no symlink. */
  lemma NewDirs(s: State, all: seq<Asset>, disk: Disk, dir: Path, p: Path)
    requires forall q :: q in s.disk ==> q in disk && disk[q] == s.disk[q]
    requires WalkTo(disk, dir) == Clear && forall a :: a in all ==> !(a.path <= dir)
    requires p in MakeDirs(disk, dir) && p !in disk
    ensures MakeDirs(disk, dir)[p].Directory? && Unlinked(s.disk, p) && forall a :: a in all ==> !(a.path <= p)
  {
    hide WalkTo, Unlinked;
    assert p <= dir;
    ClearIsUnlinked(s.disk, disk, dir, p);
    forall a | a in all ensures !(a.path <= p) { assert a.path <= p && p <= dir ==> a.path <= dir; }
  }

  lemma DirsKeepPlan(hash: string -> string, s: State, mode: Mode, all: seq<Asset>, plan: Plan, dir: Path)
    requires PlanOk(hash, s, mode, all, plan) && WalkTo(plan.disk, dir) == Clear && forall a :: a in all ==> !(a.path <= dir)
    ensures PlanOk(hash, s, mode, all, plan.(disk := MakeDirs(plan.disk, dir)))
  {
    hide Ready, Due, Unlinked, WalkTo, MakeDirs;
    forall a | a in plan.writes ensures Ready(MakeDirs(plan.disk, dir), a.path) { ReadyAfterDirs(plan.disk, dir, a.path); }
    forall p | p in MakeDirs(plan.disk, dir) && p !in plan.disk
      ensures MakeDirs(plan.disk, dir)[p].Directory? && Unlinked(s.disk, p) && forall a :: a in all ==> !(a.path <= p)
    {
      NewDirs(s, all, plan.disk, dir, p);
    }
  }

  lemma PlannedIsReady(disk: Disk, path: Path)
    requires path != [] && WalkTo(disk, Parent(path)) == Clear && (path in disk ==> disk[path].File?)
    ensures Ready(MakeDirs(disk, Parent(path)), path)
  {
    WalkIsClear(disk, Parent(path), 1);
    var made := MakeDirs(disk, Parent(path));
    forall i | 0 < i < |path| ensures path[..i] in made && made[path[..i]].Directory? {
      assert path[..i] == Parent(path)[..i];
    }
    assert !(path <= Parent(path));
  }

  lemma WriteKeepsPlan(hash: string -> string, s: State, mode: Mode, all: seq<Asset>, plan: Plan, a: Asset)
    requires PlanOk(hash, s, mode, all, plan) && Sane(all) && a in all && Due(hash, s, mode, a.path)
    requires WalkTo(plan.disk, Parent(a.path)) == Clear && (a.path in plan.disk ==> plan.disk[a.path].File?)
    ensures PlanOk(hash, s, mode, all, plan.(disk := MakeDirs(plan.disk, Parent(a.path)), writes := plan.writes + [a]))
  {
    forall b | b in all ensures !(b.path <= Parent(a.path)) {
      assert b.path <= Parent(a.path) ==> b.path < a.path;
    }
    DirsKeepPlan(hash, s, mode, all, plan, Parent(a.path));
    PlannedIsReady(plan.disk, a.path);
    hide Ready, Due, MakeDirs, Sane;
  }

  lemma RecordKeepsPlan(hash: string -> string, s: State, mode: Mode, all: seq<Asset>, plan: Plan, path: Path, h: string)
    requires PlanOk(hash, s, mode, all, plan) && path !in s.manifest && path in s.disk && s.disk[path].File? && h == hash(s.disk[path].content)
    ensures PlanOk(hash, s, mode, all, plan.(manifest := plan.manifest[path := h], recovered := plan.recovered + {path}))
  {
    hide Ready, Due;
  }

  /** While planning, a path is overwritten exactly when it was due at the start. */
  lemma DueNow(hash: string -> string, s: State, mode: Mode, all: seq<Asset>, plan: Plan, a: Asset)
    requires PlanOk(hash, s, mode, all, plan) && a in all && (mode.Force? ==> NoneReplacesDirectory(s.disk, all))
    requires a.path in plan.disk ==> !plan.disk[a.path].Link?
    ensures Overwrites(hash, s.manifest, mode, plan, a.path) <==> Due(hash, s, mode, a.path)
    ensures Due(hash, s, mode, a.path) ==> (a.path in plan.disk ==> plan.disk[a.path].File?)
  {
    assert a.path <= a.path;
  }

  lemma PlanAssetKeeps(hash: string -> string, s: State, mode: Mode, all: seq<Asset>, plan: Plan, a: Asset)
    requires PlanOk(hash, s, mode, all, plan) && Sane(all) && a in all && (mode.Force? ==> NoneReplacesDirectory(s.disk, all))
    ensures PlanOk(hash, s, mode, all, PlanAsset(hash, s.manifest, mode, plan, a))
  {
    if !plan.aborted && WalkTo(plan.disk, Parent(a.path)) != Symlinked {
      if WalkTo(plan.disk, Parent(a.path)) == Blocked {
        AbortKeepsPlan(hash, s, mode, all, plan);
      } else if a.path in plan.disk && plan.disk[a.path].Link? {
      } else if Overwrites(hash, s.manifest, mode, plan, a.path) {
        DueNow(hash, s, mode, all, plan, a);
        WriteKeepsPlan(hash, s, mode, all, plan, a);
      } else if plan.disk[a.path].File? && a.path !in s.manifest {
        RecordKeepsPlan(hash, s, mode, all, plan, a.path, hash(plan.disk[a.path].content));
      }
    }
  }

  lemma {:induction false} PlanAssetsKeep(hash: string -> string, s: State, mode: Mode, all: seq<Asset>, plan: Plan, assets: seq<Asset>)
    requires PlanOk(hash, s, mode, all, plan) && Sane(all) && (mode.Force? ==> NoneReplacesDirectory(s.disk, all)) && forall a :: a in assets ==> a in all
    ensures PlanOk(hash, s, mode, all, PlanAssets(hash, s.manifest, mode, plan, assets))
    decreases assets
  {
    hide PlanOk, Sane;
    if assets != [] {
      assert assets[0] in assets;
      PlanAssetKeeps(hash, s, mode, all, plan, assets[0]);
      PlanAssetsKeep(hash, s, mode, all, PlanAsset(hash, s.manifest, mode, plan, assets[0]), assets[1..]);
    }
  }

  lemma {:induction false} RootsKeepPlan(hash: string -> string, s: State, mode: Mode, all: seq<Asset>, plan: Plan, roots: seq<Path>)
    requires PlanOk(hash, s, mode, all, plan) && forall r, a :: r in roots && a in all ==> !(a.path <= r)
    ensures PlanOk(hash, s, mode, all, plan.(disk := MakeRoots(plan.disk, roots).1))
    decreases roots
  {
    hide PlanOk;
    if roots != [] && WalkTo(plan.disk, roots[0]) == Clear {
      assert roots[0] in roots && forall r :: r in roots[1..] ==> r in roots;
      DirsKeepPlan(hash, s, mode, all, plan, roots[0]);
      RootsKeepPlan(hash, s, mode, all, plan.(disk := MakeDirs(plan.disk, roots[0])), roots[1..]);
    } else {
      assert plan.(disk := plan.disk) == plan;
    }
  }

  lemma AbortKeepsPlan(hash: string -> string, s: State, mode: Mode, all: seq<Asset>, plan: Plan)
    requires PlanOk(hash, s, mode, all, plan)
    ensures PlanOk(hash, s, mode, all, plan.(aborted := true))
  {
  }

  lemma {:induction false} PlanGroupsKeep(hash: string -> string, s: State, mode: Mode, all: seq<Asset>, plan: Plan, groups: seq<Group>)
    requires PlanOk(hash, s, mode, all, plan) && Sane(all) && SaneRoots(groups, all) && (mode.Force? ==> NoneReplacesDirectory(s.disk, all))
    requires forall a :: a in AssetsOf(groups) ==> a in all
    ensures PlanOk(hash, s, mode, all, PlanGroups(hash, s.manifest, mode, plan, groups))
    decreases groups
  {
    if groups != [] {
      var g := groups[0];
      PlanGroupKeeps(hash, s, mode, all, plan, groups);
      hide PlanOk, Sane, PlanGroup;
      assert SaneRoots(groups[1..], all) by { assert forall h :: h in groups[1..] ==> h in groups; }
      assert AssetsOf(groups) == g.assets + AssetsOf(groups[1..]);
      PlanGroupsKeep(hash, s, mode, all, PlanGroup(hash, s.manifest, mode, plan, g), groups[1..]);
    }
  }

  lemma PlanGroupKeeps(hash: string -> string, s: State, mode: Mode, all: seq<Asset>, plan: Plan, groups: seq<Group>)
    requires groups != [] && PlanOk(hash, s, mode, all, plan) && Sane(all) && SaneRoots(groups, all) && (mode.Force? ==> NoneReplacesDirectory(s.disk, all))
    requires forall a :: a in AssetsOf(groups) ==> a in all
    ensures PlanOk(hash, s, mode, all, PlanGroup(hash, s.manifest, mode, plan, groups[0]))
  {
    hide PlanOk, Sane, PlanAssets, MakeRoots;
    var g := groups[0];
    assert g in groups;
    assert forall a :: a in g.assets ==> a in AssetsOf(groups);
    RootsKeepPlan(hash, s, mode, all, plan, g.roots);
    var rooted := plan.(disk := MakeRoots(plan.disk, g.roots).1);
    AbortKeepsPlan(hash, s, mode, all, rooted);
    PlanAssetsKeep(hash, s, mode, all, rooted, g.assets);
  }

  lemma PlanKeeps(hash: string -> string, s: State, mode: Mode, groups: seq<Group>)
    requires Placeable(s, mode, groups)
    ensures PlanOk(hash, s, mode, AssetsOf(groups), PlanAll(hash, s, mode, groups))
  {
    PlanGroupsKeep(hash, s, mode, AssetsOf(groups), Plan(s.disk, s.manifest, s.recovered, [], false), groups);
  }

  // ---- what writing does ---------------------------------------------------------------------

  /** The content last written at a path. */
  function LastAt(writes: seq<Asset>, path: Path): Option<string> {
    if writes == [] then None
    else
      match LastAt(writes[1..], path)
      case Some(content) => Some(content)
      case None => if writes[0].path == path then Some(writes[0].content) else None
  }

  lemma {:induction false} LastAtIsWritten(writes: seq<Asset>, path: Path)
    ensures LastAt(writes, path).Some? <==> exists a :: a in writes && a.path == path
    ensures LastAt(writes, path).Some? ==> Asset(path, LastAt(writes, path).value) in writes
  {
    if writes != [] {
      LastAtIsWritten(writes[1..], path);
      if exists a :: a in writes && a.path == path {
        var a :| a in writes && a.path == path;
        assert a == writes[0] || a in writes[1..];
      }
    }
  }

  /** What writing makes of a plan, path by path. */
  ghost predicate WrittenOut(hash: string -> string, plan: Plan, done: Plan, writes: seq<Asset>) {
    && !done.aborted
    && forall p ::
         match LastAt(writes, p)
         case None =>
           && (p in done.disk <==> p in plan.disk) && (p in plan.disk ==> done.disk[p] == plan.disk[p])
           && (p in done.manifest <==> p in plan.manifest) && (p in plan.manifest ==> done.manifest[p] == plan.manifest[p])
           && (p in done.recovered <==> p in plan.recovered)
         case Some(content) =>
           && p in done.disk && done.disk[p] == File(content)
           && p in done.manifest && done.manifest[p] == hash(content) && p !in done.recovered
  }

  /** Writing to a ready path does not fail and makes no directory. */
  lemma ReadyWrite(hash: string -> string, plan: Plan, a: Asset)
    requires !plan.aborted && Ready(plan.disk, a.path)
    ensures WriteAsset(hash, plan, a) == plan.(disk := plan.disk[a.path := File(a.content)],
                                               manifest := plan.manifest[a.path := hash(a.content)],
                                               recovered := plan.recovered - {a.path})
  {
    var dir := Parent(a.path);
    WalkIsClear(plan.disk, dir, 1);
    forall j | 1 <= j <= |dir| ensures dir[..j] in plan.disk && plan.disk[dir[..j]].Directory? { assert dir[..j] == a.path[..j]; }
    NothingToMake(plan.disk, dir);
  }

  lemma {:induction false} NothingToMake(disk: Disk, dir: Path)
    requires forall j :: 1 <= j <= |dir| ==> dir[..j] in disk
    ensures MakeDirs(disk, dir) == disk
    decreases |dir|
  {
    if dir != [] {
      assert dir[..|dir|] == dir;
      forall j | 1 <= j <= |Parent(dir)| ensures Parent(dir)[..j] in disk { assert Parent(dir)[..j] == dir[..j]; }
      NothingToMake(disk, Parent(dir));
    }
  }

  lemma WrittenFirst(hash: string -> string, plan: Plan, done: Plan, writes: seq<Asset>)
    requires writes != []
    requires var a := writes[0];
             WrittenOut(hash, plan.(disk := plan.disk[a.path := File(a.content)], manifest := plan.manifest[a.path := hash(a.content)],
                                    recovered := plan.recovered - {a.path}), done, writes[1..])
    ensures WrittenOut(hash, plan, done, writes)
  {
  }

  lemma ReadyAfterWrite(disk: Disk, path: Path, content: string, other: Path)
    requires Ready(disk, path) && Ready(disk, other) && !(path < other)
    ensures Ready(disk[path := File(content)], other)
  {
    forall i | 0 < i < |other| ensures other[..i] != path {
      assert other[..i] < other;
    }
  }

  lemma {:induction false} WritesSucceed(hash: string -> string, plan: Plan, writes: seq<Asset>, all: seq<Asset>)
    requires !plan.aborted && Sane(all)
    requires forall a :: a in writes ==> a in all && Ready(plan.disk, a.path)
    ensures WrittenOut(hash, plan, WriteAssets(hash, plan, writes), writes)
    decreases writes
  {
    if writes != [] {
      var a, rest := writes[0], writes[1..];
      assert a in writes;
      ReadyWrite(hash, plan, a);
      var next := WriteAsset(hash, plan, a);
      forall b | b in rest ensures b in all && Ready(next.disk, b.path) {
        assert b in writes;
        ReadyAfterWrite(plan.disk, a.path, a.content, b.path);
      }
      hide WriteAsset, Ready, Sane, WrittenOut;
      WritesSucceed(hash, next, rest, all);
      WrittenFirst(hash, plan, WriteAssets(hash, plan, writes), writes);
    } else {
      hide Ready, Sane;
    }
  }

  // ---- runs ----------------------------------------------------------------------------------

  /** The project, and for each path the content the tool last wrote there. */
  datatype World = World(state: State, last: map<Path, string>)

  function Remembered(last: map<Path, string>, writes: seq<Asset>): map<Path, string>
    decreases writes
  {
    if writes == [] then last else Remembered(last[writes[0].path := writes[0].content], writes[1..])
  }

  lemma {:induction false} RememberedAt(last: map<Path, string>, writes: seq<Asset>, p: Path)
    ensures match LastAt(writes, p)
            case Some(content) => p in Remembered(last, writes) && Remembered(last, writes)[p] == content
            case None => (p in Remembered(last, writes) <==> p in last) && (p in last ==> Remembered(last, writes)[p] == last[p])
    decreases writes
  {
    if writes != [] { RememberedAt(last[writes[0].path := writes[0].content], writes[1..], p); }
  }

  datatype Op =
    | InstallShared(mode: Mode, groups: seq<Group>)
    | Refresh(root: Path, templates: seq<Template>)
    | UserEdit(path: Path, node: Option<Node>)
    | LoseManifest

  function Step(hash: string -> string, w: World, op: Op): World {
    match op
    case InstallShared(mode, groups) =>
      var plan := PlanAll(hash, w.state, mode, groups);
      World(Install(hash, w.state, mode, groups), if plan.aborted then w.last else Remembered(w.last, plan.writes))
    case Refresh(root, templates) =>
      World(RefreshTemplates(hash, w.state, root, templates),
            if RefreshAborts(w.state, root, templates) then w.last
            else Remembered(w.last, Refreshed(hash, w.state, TemplateAssets(root, templates))))
    case UserEdit(path, Some(node)) => w.(state := w.state.(disk := w.state.disk[path := node]))
    case UserEdit(path, None) => w.(state := w.state.(disk := w.state.disk - {path}))
    case LoseManifest => w.(state := State(w.state.disk, map[], {}))
  }

  function Run(hash: string -> string, w: World, ops: seq<Op>): World
    decreases ops
  {
    if ops == [] then w else Run(hash, Step(hash, w, ops[0]), ops[1..])
  }

  /** Every path counted as managed carries the hash of what the tool last wrote there. */
  ghost predicate Inv(hash: string -> string, w: World) {
    forall p :: p in w.state.manifest && p !in w.state.recovered ==> p in w.last && hash(w.last[p]) == w.state.manifest[p]
  }

  ghost predicate Injective(hash: string -> string) {
    forall x, y :: hash(x) == hash(y) ==> x == y
  }

  /** What an install may do to the disk and to the manifest. */
  ghost predicate Safe(before: World, after: World) {
    && (forall p :: p in before.state.disk ==>
          && p in after.state.disk
          && (after.state.disk[p] == before.state.disk[p]
              || (before.state.disk[p].File? && after.state.disk[p].File? && p in before.last && before.last[p] == before.state.disk[p].content)))
    && (forall p :: p in after.state.disk && (p !in before.state.disk || after.state.disk[p] != before.state.disk[p]) ==> Unlinked(before.state.disk, p))
    && (forall p :: p in before.state.disk && p !in before.state.manifest && p in after.state.manifest ==> p in after.state.recovered)
  }

  ghost predicate Acceptable(op: Op) {
    op.InstallShared? ==> !op.mode.Force? && Sane(AssetsOf(op.groups)) && SaneRoots(op.groups, AssetsOf(op.groups))
  }

  lemma AbortedInstall(hash: string -> string, s: State, mode: Mode, groups: seq<Group>)
    requires PlanAll(hash, s, mode, groups).aborted
    ensures Install(hash, s, mode, groups) == s.(disk := PlanAll(hash, s, mode, groups).disk)
  {
    AbortedStays(hash, PlanAll(hash, s, mode, groups), PlanAll(hash, s, mode, groups).writes);
  }

  lemma {:induction false} AbortedStays(hash: string -> string, plan: Plan, writes: seq<Asset>)
    requires plan.aborted
    ensures WriteAssets(hash, plan, writes) == plan
    decreases writes
  {
    if writes != [] { AbortedStays(hash, plan, writes[1..]); }
  }

  lemma DueIsUnchanged(hash: string -> string, w: World, mode: Mode, p: Path)
    requires Inv(hash, w) && Injective(hash) && !mode.Force? && Due(hash, w.state, mode, p) && p in w.state.disk
    ensures w.state.disk[p].File? && p in w.state.manifest && p in w.last && w.last[p] == w.state.disk[p].content
  {
  }

  /** What the tool last wrote and nobody has changed is managed, and nothing else is. */
  lemma ManagedIff(hash: string -> string, w: World, p: Path)
    requires Inv(hash, w) && Injective(hash) && p in w.state.disk && w.state.disk[p].File?
    requires p in w.state.manifest && w.state.manifest[p] != ""
    ensures Managed(hash, w.state.manifest, w.state.recovered, w.state.disk, p)
       <==> p !in w.state.recovered && w.last[p] == w.state.disk[p].content
  {
  }

  lemma ReadyIsUnlinked(sub: Disk, disk: Disk, path: Path)
    requires Ready(disk, path) && forall q :: q in sub ==> q in disk && disk[q] == sub[q]
    ensures Unlinked(sub, path)
  {
    assert path[..|path|] == path;
  }

  /** One install, path by path. */
  lemma InstallAt(hash: string -> string, w: World, mode: Mode, groups: seq<Group>, p: Path)
    requires Inv(hash, w) && Injective(hash) && Acceptable(InstallShared(mode, groups))
    ensures var w' := Step(hash, w, InstallShared(mode, groups));
            && (p in w'.state.manifest && p !in w'.state.recovered ==> p in w'.last && hash(w'.last[p]) == w'.state.manifest[p])
            && (p in w.state.disk ==>
                  && p in w'.state.disk
                  && (w'.state.disk[p] == w.state.disk[p]
                      || (w.state.disk[p].File? && w'.state.disk[p].File? && p in w.last && w.last[p] == w.state.disk[p].content)))
            && (p in w'.state.disk && (p !in w.state.disk || w'.state.disk[p] != w.state.disk[p]) ==> Unlinked(w.state.disk, p))
            && (p in w.state.disk && p !in w.state.manifest && p in w'.state.manifest ==> p in w'.state.recovered)
  {
    var s, all, plan := w.state, AssetsOf(groups), PlanAll(hash, w.state, mode, groups);
    PlanKeeps(hash, s, mode, groups);
    if plan.aborted {
      AbortedInstall(hash, s, mode, groups);
      hide PlanAll, Install, Ready, Due;
    } else {
      WritesSucceed(hash, plan, plan.writes, all);
      RememberedAt(w.last, plan.writes, p);
      LastAtIsWritten(plan.writes, p);
      if LastAt(plan.writes, p).Some? {
        ReadyIsUnlinked(s.disk, plan.disk, p);
        if p in s.disk { DueIsUnchanged(hash, w, mode, p); }
      }
      hide PlanAll, WriteAssets, Ready, Due, Sane, Unlinked;
    }
  }

  /** A non-force install overwrites only what the tool last wrote, writes at no symlinked path, and takes no found file as its own. */
  lemma InstallIsSafe(hash: string -> string, w: World, mode: Mode, groups: seq<Group>)
    requires Inv(hash, w) && Injective(hash) && Acceptable(InstallShared(mode, groups))
    ensures Inv(hash, Step(hash, w, InstallShared(mode, groups))) && Safe(w, Step(hash, w, InstallShared(mode, groups)))
  {
    forall p { InstallAt(hash, w, mode, groups, p); }
    hide Step, Unlinked;
  }

  // ---- what a refresh does -------------------------------------------------------------------

  /** A template's place is ready once its directory is made. */
  lemma TemplateIsReady(disk: Disk, root: Path, path: Path)
    requires |path| == |root| + 1 && root < path && WalkTo(disk, root) == Clear && (path in disk ==> disk[path].File?)
    ensures Ready(MakeDirs(disk, root), path)
  {
    assert Parent(path) == root;
    PlannedIsReady(disk, path);
  }

  /** A refresh that is not stopped writes all it decided to write. */
  lemma RefreshSucceeds(hash: string -> string, s: State, root: Path, templates: seq<Template>)
    requires !RefreshAborts(s, root, templates)
    ensures var disk, writes := MakeDirs(s.disk, root), Refreshed(hash, s, TemplateAssets(root, templates));
            var plan := Plan(disk, s.manifest, s.recovered, writes, false);
            var done := WriteAssets(hash, plan, writes);
            && WrittenOut(hash, plan, done, writes) && RefreshTemplates(hash, s, root, templates) == State(done.disk, done.manifest, done.recovered)
            && forall a :: a in writes ==> Ready(disk, a.path)
  {
    var disk, assets := MakeDirs(s.disk, root), TemplateAssets(root, templates);
    var writes := Refreshed(hash, s, assets);
    assert Sane(assets) by {
      forall a, b | a in assets && b in assets ensures !(a.path < b.path) && a.path != [] { assert |a.path| == |root| + 1 == |b.path|; }
    }
    forall a | a in writes ensures a in assets && Ready(disk, a.path) {
      assert |a.path| == |root| + 1 && root < a.path;
      TemplateIsReady(s.disk, root, a.path);
    }
    hide Ready, Sane, MakeDirs, Refreshed, WriteAssets, WrittenOut;
    WritesSucceed(hash, Plan(disk, s.manifest, s.recovered, writes, false), writes, assets);
  }

  /** Whether a refresh replaces the content of a file the tool found and did not write. */
  predicate Seizes(hash: string -> string, w: World, assets: seq<Asset>, p: Path) {
    && p in w.state.recovered && RefreshOverwrites(hash, w.state, p)
    && LastAt(assets, p).Some? && LastAt(assets, p).value != w.state.disk[p].content
    && !(p in w.last && w.last[p] == w.state.disk[p].content)
  }

  lemma {:induction false} LastRefreshed(hash: string -> string, s: State, assets: seq<Asset>, p: Path)
    ensures LastAt(Refreshed(hash, s, assets), p)
         == if p !in s.disk || RefreshOverwrites(hash, s, p) then LastAt(assets, p) else None
  {
    hide RefreshOverwrites;
    if assets != [] {
      LastRefreshed(hash, s, assets[1..], p);
      var rest := Refreshed(hash, s, assets[1..]);
      if assets[0].path !in s.disk || RefreshOverwrites(hash, s, assets[0].path) {
        assert Refreshed(hash, s, assets) == [assets[0]] + rest && ([assets[0]] + rest)[1..] == rest;
      } else {
        assert Refreshed(hash, s, assets) == [] + rest == rest;
      }
    }
  }

  /** What a refresh makes of one path. */
  ghost predicate RefreshedAt(hash: string -> string, w: World, w': World, assets: seq<Asset>, p: Path) {
    var s, s' := w.state, w'.state;
    && (p in s'.manifest && p !in s'.recovered ==> p in w'.last && hash(w'.last[p]) == s'.manifest[p])
    && (p in s.disk && p !in s.manifest ==> p !in s'.manifest)
    && (LastAt(assets, p).Some? && (p !in s.disk || RefreshOverwrites(hash, s, p)) ==>
          && p in s'.disk && s'.disk[p] == File(LastAt(assets, p).value)
          && p in s'.manifest && s'.manifest[p] == hash(LastAt(assets, p).value))
    && (p in s.disk ==>
          && p in s'.disk
          && s'.disk[p] == if RefreshOverwrites(hash, s, p) && LastAt(assets, p).Some? then File(LastAt(assets, p).value) else s.disk[p])
    && (p in s'.disk && (p !in s.disk || s'.disk[p] != s.disk[p]) ==> Unlinked(s.disk, p))
    && (p in s'.recovered <==> p in s.recovered && !(LastAt(assets, p).Some? && (p !in s.disk || RefreshOverwrites(hash, s, p))))
  }

  lemma RefreshAt(hash: string -> string, w: World, root: Path, templates: seq<Template>, p: Path)
    requires Inv(hash, w) && !RefreshAborts(w.state, root, templates)
    ensures RefreshedAt(hash, w, Step(hash, w, Refresh(root, templates)), TemplateAssets(root, templates), p)
  {
    var s, assets := w.state, TemplateAssets(root, templates);
    var disk, writes := MakeDirs(s.disk, root), Refreshed(hash, s, assets);
    RefreshSucceeds(hash, s, root, templates);
    LastRefreshed(hash, s, assets, p);
    RememberedAt(w.last, writes, p);
    LastAtIsWritten(writes, p);
    if LastAt(writes, p).Some? {
      ReadyIsUnlinked(s.disk, disk, p);
    } else if p in disk && p !in s.disk {
      ClearIsUnlinked(s.disk, s.disk, root, p);
    }
    hide Ready, Unlinked, Refreshed, WriteAssets, RefreshTemplates, RefreshAborts;
  }

  ghost predicate SeizesNone(hash: string -> string, w: World, assets: seq<Asset>) {
    forall p :: !Seizes(hash, w, assets, p)
  }

  /** What a refresh replaces at a path that is not seized was the tool's own, or is the same. */
  lemma UnseizedAt(hash: string -> string, w: World, w': World, assets: seq<Asset>, p: Path)
    requires Inv(hash, w) && Injective(hash) && RefreshedAt(hash, w, w', assets, p) && p in w.state.disk
    ensures p in w'.state.disk
    ensures !Seizes(hash, w, assets, p)
       <==> (w'.state.disk[p] == w.state.disk[p]
             || (w.state.disk[p].File? && w'.state.disk[p].File? && p in w.last && w.last[p] == w.state.disk[p].content))
  {
    hide Unlinked, LastAt;
  }

  lemma SafeUnlessSeizing(hash: string -> string, w: World, w': World, assets: seq<Asset>)
    requires Inv(hash, w) && Injective(hash) && forall p :: RefreshedAt(hash, w, w', assets, p)
    ensures Inv(hash, w') && (Safe(w, w') <==> SeizesNone(hash, w, assets))
  {
    forall p | p in w.state.disk
      ensures p in w'.state.disk
      ensures !Seizes(hash, w, assets, p)
         <==> (w'.state.disk[p] == w.state.disk[p]
               || (w.state.disk[p].File? && w'.state.disk[p].File? && p in w.last && w.last[p] == w.state.disk[p].content))
    {
      UnseizedAt(hash, w, w', assets, p);
    }
    forall p ensures Seizes(hash, w, assets, p) ==> p in w.state.disk {}
    forall p
      ensures p in w'.state.manifest && p !in w'.state.recovered ==> p in w'.last && hash(w'.last[p]) == w'.state.manifest[p]
      ensures p in w.state.disk && p !in w.state.manifest ==> p !in w'.state.manifest
      ensures p in w'.state.disk && (p !in w.state.disk || w'.state.disk[p] != w.state.disk[p]) ==> Unlinked(w.state.disk, p)
    {
      assert RefreshedAt(hash, w, w', assets, p);
    }
    hide RefreshedAt, Unlinked, LastAt, Seizes;
  }

  /** A refresh is stopped exactly by what is no directory on the way to its root, or by a symlink in any template's place. */
  lemma RefreshStopsIff(s: State, root: Path, templates: seq<Template>)
    ensures RefreshAborts(s, root, templates)
       <==> || (exists i :: 0 < i <= |root| && root[..i] in s.disk && !s.disk[root[..i]].Directory?)
            || (exists t :: t in templates && root + [t.name] in s.disk && s.disk[root + [t.name]].Link?)
  {
    WalkIsClear(s.disk, root, 1);
    var assets := TemplateAssets(root, templates);
    hide WalkFrom;
    if t :| t in templates && root + [t.name] in s.disk && s.disk[root + [t.name]].Link? {
      var i :| 0 <= i < |templates| && templates[i] == t;
      assert assets[i] in assets && assets[i].path == root + [t.name];
    }
    if a :| a in assets && a.path in s.disk && s.disk[a.path].Link? {
      var i :| 0 <= i < |assets| && assets[i] == a;
      assert templates[i] in templates;
    }
  }

  /** Then it makes directories only. */
  lemma StoppedRefreshIsIdle(hash: string -> string, s: State, root: Path, templates: seq<Template>)
    requires RefreshAborts(s, root, templates)
    ensures var after := RefreshTemplates(hash, s, root, templates);
            && after.manifest == s.manifest && after.recovered == s.recovered
            && forall p :: if p in s.disk then p in after.disk && after.disk[p] == s.disk[p] else p in after.disk ==> after.disk[p].Directory?
  {
  }

  /** A stopped refresh makes directories only. */
  lemma StoppedRefresh(hash: string -> string, w: World, root: Path, templates: seq<Template>)
    requires Inv(hash, w) && RefreshAborts(w.state, root, templates)
    ensures Inv(hash, Step(hash, w, Refresh(root, templates))) && Safe(w, Step(hash, w, Refresh(root, templates)))
  {
    var s' := RefreshTemplates(hash, w.state, root, templates);
    forall p | p in s'.disk && p !in w.state.disk ensures Unlinked(w.state.disk, p) {
      ClearIsUnlinked(w.state.disk, w.state.disk, root, p);
    }
    hide Unlinked;
  }

  /** A refresh keeps the invariant, and is as safe as an install exactly when it is stopped or seizes no found file. */
  lemma RefreshIsSafeIff(hash: string -> string, w: World, root: Path, templates: seq<Template>)
    requires Inv(hash, w) && Injective(hash)
    ensures Inv(hash, Step(hash, w, Refresh(root, templates)))
    ensures Safe(w, Step(hash, w, Refresh(root, templates)))
       <==> RefreshAborts(w.state, root, templates) || SeizesNone(hash, w, TemplateAssets(root, templates))
  {
    if RefreshAborts(w.state, root, templates) {
      StoppedRefresh(hash, w, root, templates);
    } else {
      hide Step, RefreshAborts, RefreshedAt, Inv, Injective, Safe, SeizesNone;
      forall p ensures RefreshedAt(hash, w, Step(hash, w, Refresh(root, templates)), TemplateAssets(root, templates), p) {
        RefreshAt(hash, w, root, templates, p);
      }
      SafeUnlessSeizing(hash, w, Step(hash, w, Refresh(root, templates)), TemplateAssets(root, templates));
    }
  }

  /** The found files that a refresh makes the tool's own: the templates among them that are missing or unchanged. */
  lemma RefreshUnprotectsIff(hash: string -> string, w: World, root: Path, templates: seq<Template>, p: Path)
    requires Inv(hash, w) && p in w.state.recovered
    ensures p !in Step(hash, w, Refresh(root, templates)).state.recovered
       <==> && !RefreshAborts(w.state, root, templates)
            && (exists a :: a in TemplateAssets(root, templates) && a.path == p)
            && (p !in w.state.disk || RefreshOverwrites(hash, w.state, p))
  {
    hide RefreshOverwrites;
    LastAtIsWritten(TemplateAssets(root, templates), p);
    if !RefreshAborts(w.state, root, templates) {
      RefreshAt(hash, w, root, templates, p);
      hide RefreshTemplates;
    }
  }

  /** Installs are safe, and refreshes where they seize no found file. */
  ghost predicate SafeStep(hash: string -> string, w: World, op: Op) {
    match op
    case InstallShared(_, _) => Safe(w, Step(hash, w, op))
    case Refresh(root, templates) =>
      Safe(w, Step(hash, w, op)) <==> RefreshAborts(w.state, root, templates) || SeizesNone(hash, w, TemplateAssets(root, templates))
    case _ => true
  }

  ghost predicate RunIsSafe(hash: string -> string, w: World, ops: seq<Op>)
    decreases ops
  {
    ops == [] || (SafeStep(hash, w, ops[0]) && RunIsSafe(hash, Step(hash, w, ops[0]), ops[1..]))
  }

  /** Over any run of non-force installs, template refreshes, user edits and manifest losses, every step is as safe as can be. */
  lemma {:induction false} RunsAreSafe(hash: string -> string, w: World, ops: seq<Op>)
    requires Inv(hash, w) && Injective(hash) && forall op :: op in ops ==> Acceptable(op)
    ensures Inv(hash, Run(hash, w, ops)) && RunIsSafe(hash, w, ops)
    decreases ops
  {
    if ops != [] {
      assert ops[0] in ops;
      StepIsSafe(hash, w, ops[0]);
      hide Inv, Step, Acceptable, SafeStep;
      RunsAreSafe(hash, Step(hash, w, ops[0]), ops[1..]);
    }
  }

  lemma StepIsSafe(hash: string -> string, w: World, op: Op)
    requires Inv(hash, w) && Injective(hash) && Acceptable(op)
    ensures Inv(hash, Step(hash, w, op)) && SafeStep(hash, w, op)
  {
    hide Safe, SeizesNone, RefreshAborts, RefreshTemplates, Install, PlanAll, MakeDirs, TemplateAssets;
    match op
    case InstallShared(mode, groups) =>
      InstallIsSafe(hash, w, mode, groups);
    case Refresh(root, templates) =>
      RefreshIsSafeIff(hash, w, root, templates);
    case _ =>
  }

  // ---- what an install provides --------------------------------------------------------------

  /** Only directories and symlinks are on the way. */
  ghost predicate Passable(disk: Disk, dir: Path) {
    forall i :: 0 < i <= |dir| && dir[..i] in disk ==> !disk[dir[..i]].File?
  }

  /** No file is in the place of a directory that is needed. */
  ghost predicate AllPassable(disk: Disk, groups: seq<Group>) {
    && (forall g, r :: g in groups && r in g.roots ==> Passable(disk, r))
    && (forall a :: a in AssetsOf(groups) ==> Passable(disk, Parent(a.path)))
  }

  /** While planning, a passable way is never blocked, and one without symlinks never symlinked. */
  lemma WayStays(hash: string -> string, s: State, mode: Mode, all: seq<Asset>, plan: Plan, dir: Path)
    requires PlanOk(hash, s, mode, all, plan)
    ensures Passable(s.disk, dir) ==> WalkTo(plan.disk, dir) != Blocked
    ensures Unlinked(s.disk, dir) ==> WalkTo(plan.disk, dir) != Symlinked
  {
    SameWalk(s.disk, plan.disk, dir, 1);
  }

  lemma {:induction false} SameWalk(sub: Disk, disk: Disk, dir: Path, i: nat)
    requires 0 < i
    requires forall q :: q in disk ==> disk[q].Directory? || (q in sub && sub[q] == disk[q])
    ensures Passable(sub, dir) ==> WalkFrom(disk, dir, i) != Blocked
    ensures Unlinked(sub, dir) ==> WalkFrom(disk, dir, i) != Symlinked
    decreases |dir| - i
  {
    if i <= |dir| { SameWalk(sub, disk, dir, i + 1); }
  }

  lemma PlanAssetGoesOn(hash: string -> string, s: State, mode: Mode, all: seq<Asset>, plan: Plan, a: Asset)
    requires PlanOk(hash, s, mode, all, plan) && Passable(s.disk, Parent(a.path)) && !plan.aborted
    ensures !PlanAsset(hash, s.manifest, mode, plan, a).aborted
  {
    WayStays(hash, s, mode, all, plan, Parent(a.path));
  }

  lemma {:induction false} PlanAssetsGoOn(hash: string -> string, s: State, mode: Mode, all: seq<Asset>, plan: Plan, assets: seq<Asset>)
    requires PlanOk(hash, s, mode, all, plan) && Sane(all) && (mode.Force? ==> NoneReplacesDirectory(s.disk, all)) && !plan.aborted
    requires forall a :: a in assets ==> a in all && Passable(s.disk, Parent(a.path))
    ensures !PlanAssets(hash, s.manifest, mode, plan, assets).aborted
    decreases assets
  {
    hide PlanOk, Sane, Passable, PlanAsset;
    if assets != [] {
      assert assets[0] in assets;
      PlanAssetKeeps(hash, s, mode, all, plan, assets[0]);
      PlanAssetGoesOn(hash, s, mode, all, plan, assets[0]);
      PlanAssetsGoOn(hash, s, mode, all, PlanAsset(hash, s.manifest, mode, plan, assets[0]), assets[1..]);
    }
  }

  lemma {:induction false} RootsGoOn(hash: string -> string, s: State, mode: Mode, all: seq<Asset>, plan: Plan, roots: seq<Path>)
    requires PlanOk(hash, s, mode, all, plan) && forall r :: r in roots ==> Passable(s.disk, r) && forall a :: a in all ==> !(a.path <= r)
    ensures MakeRoots(plan.disk, roots).0 != Blocked
    ensures (forall r :: r in roots ==> Unlinked(s.disk, r)) ==> MakeRoots(plan.disk, roots).0 == Clear
    decreases roots
  {
    hide PlanOk, Unlinked, Passable;
    if roots != [] {
      assert roots[0] in roots && forall r :: r in roots[1..] ==> r in roots;
      WayStays(hash, s, mode, all, plan, roots[0]);
      if WalkTo(plan.disk, roots[0]) == Clear {
        DirsKeepPlan(hash, s, mode, all, plan, roots[0]);
        RootsGoOn(hash, s, mode, all, plan.(disk := MakeDirs(plan.disk, roots[0])), roots[1..]);
      }
    }
  }

  lemma PlanGroupGoesOn(hash: string -> string, s: State, mode: Mode, all: seq<Asset>, plan: Plan, g: Group)
    requires PlanOk(hash, s, mode, all, plan) && Sane(all) && (mode.Force? ==> NoneReplacesDirectory(s.disk, all)) && !plan.aborted
    requires forall r :: r in g.roots ==> Passable(s.disk, r) && forall b :: b in all ==> !(b.path <= r)
    requires forall a :: a in g.assets ==> a in all && Passable(s.disk, Parent(a.path))
    ensures !PlanGroup(hash, s.manifest, mode, plan, g).aborted
  {
    hide PlanOk, Sane, Passable, PlanAssets, MakeRoots;
    RootsGoOn(hash, s, mode, all, plan, g.roots);
    RootsKeepPlan(hash, s, mode, all, plan, g.roots);
    PlanAssetsGoOn(hash, s, mode, all, plan.(disk := MakeRoots(plan.disk, g.roots).1), g.assets);
  }

  lemma {:induction false} PlanGroupsGoOn(hash: string -> string, s: State, mode: Mode, all: seq<Asset>, plan: Plan, groups: seq<Group>)
    requires PlanOk(hash, s, mode, all, plan) && Sane(all) && SaneRoots(groups, all) && (mode.Force? ==> NoneReplacesDirectory(s.disk, all))
    requires (forall b :: b in AssetsOf(groups) ==> b in all) && AllPassable(s.disk, groups) && !plan.aborted
    ensures !PlanGroups(hash, s.manifest, mode, plan, groups).aborted
    decreases groups
  {
    hide PlanOk, Sane, Passable, PlanGroup;
    if groups != [] {
      var g, rest := groups[0], groups[1..];
      assert g in groups && forall h :: h in rest ==> h in groups;
      assert AssetsOf(groups) == g.assets + AssetsOf(rest);
      PlanGroupKeeps(hash, s, mode, all, plan, groups);
      PlanGroupGoesOn(hash, s, mode, all, plan, g);
      PlanGroupsGoOn(hash, s, mode, all, PlanGroup(hash, s.manifest, mode, plan, g), rest);
    }
  }

  /** An install is only stopped by a file where a directory is needed: symlinks make it pass over what lies behind them. */
  lemma InstallCompletes(hash: string -> string, s: State, mode: Mode, groups: seq<Group>)
    requires Placeable(s, mode, groups) && AllPassable(s.disk, groups)
    ensures !PlanAll(hash, s, mode, groups).aborted && !Done(hash, s, mode, groups).aborted
  {
    var plan, all := PlanAll(hash, s, mode, groups), AssetsOf(groups);
    PlanKeeps(hash, s, mode, groups);
    PlanGroupsGoOn(hash, s, mode, all, Plan(s.disk, s.manifest, s.recovered, [], false), groups);
    hide PlanGroups, WriteAssets, Ready, Due, Sane;
    WritesSucceed(hash, plan, plan.writes, all);
  }

  /** What a plan has made of an asset: its write is planned, or the file found in its place is recorded. */
  ghost predicate Planned(hash: string -> string, s: State, mode: Mode, plan: Plan, a: Asset) {
    && (Due(hash, s, mode, a.path) ==> a in plan.writes)
    && (!Due(hash, s, mode, a.path) && s.disk[a.path].File? && a.path !in s.manifest ==> a.path in plan.manifest)
  }

  lemma AssetIsPlanned(hash: string -> string, s: State, mode: Mode, all: seq<Asset>, plan: Plan, a: Asset)
    requires PlanOk(hash, s, mode, all, plan) && a in all && (mode.Force? ==> NoneReplacesDirectory(s.disk, all))
    requires Unlinked(s.disk, Parent(a.path)) && !PlanAsset(hash, s.manifest, mode, plan, a).aborted
    ensures Planned(hash, s, mode, PlanAsset(hash, s.manifest, mode, plan, a), a)
  {
    WayStays(hash, s, mode, all, plan, Parent(a.path));
    assert a.path <= a.path;
    if !(a.path in plan.disk && plan.disk[a.path].Link?) { DueNow(hash, s, mode, all, plan, a); }
  }

  lemma {:induction false} AssetsStayPlanned(hash: string -> string, s: State, mode: Mode, plan: Plan, assets: seq<Asset>, a: Asset)
    ensures plan.aborted ==> PlanAssets(hash, s.manifest, mode, plan, assets) == plan
    ensures Planned(hash, s, mode, plan, a) ==> Planned(hash, s, mode, PlanAssets(hash, s.manifest, mode, plan, assets), a)
    decreases assets
  {
    hide Due, WalkTo;
    if assets != [] { AssetsStayPlanned(hash, s, mode, PlanAsset(hash, s.manifest, mode, plan, assets[0]), assets[1..], a); }
  }

  /** Every asset of a list is planned, unless the run is aborted. */
  lemma {:induction false} AssetsArePlanned(hash: string -> string, s: State, mode: Mode, all: seq<Asset>, plan: Plan, assets: seq<Asset>, a: Asset)
    requires PlanOk(hash, s, mode, all, plan) && Sane(all) && (mode.Force? ==> NoneReplacesDirectory(s.disk, all))
    requires (forall b :: b in assets ==> b in all) && a in assets
    requires Unlinked(s.disk, Parent(a.path)) && !PlanAssets(hash, s.manifest, mode, plan, assets).aborted
    ensures Planned(hash, s, mode, PlanAssets(hash, s.manifest, mode, plan, assets), a)
    decreases assets
  {
    hide PlanOk, Sane, Planned, Unlinked, PlanAsset;
    assert assets[0] in assets;
    var next := PlanAsset(hash, s.manifest, mode, plan, assets[0]);
    PlanAssetKeeps(hash, s, mode, all, plan, assets[0]);
    AssetsStayPlanned(hash, s, mode, next, assets[1..], a);
    if a == assets[0] {
      AssetIsPlanned(hash, s, mode, all, plan, a);
    } else {
      assert a in assets[1..] by { assert assets == [assets[0]] + assets[1..]; }
      AssetsArePlanned(hash, s, mode, all, next, assets[1..], a);
    }
  }

  /** An asset is planned when its group is done, if no symlink keeps the installer from the group's directories. */
  lemma PlannedInGroup(hash: string -> string, s: State, mode: Mode, all: seq<Asset>, plan: Plan, g: Group, a: Asset)
    requires PlanOk(hash, s, mode, all, plan) && Sane(all) && (mode.Force? ==> NoneReplacesDirectory(s.disk, all))
    requires (forall b :: b in g.assets ==> b in all) && a in g.assets
    requires forall r :: r in g.roots ==> Passable(s.disk, r) && Unlinked(s.disk, r) && forall b :: b in all ==> !(b.path <= r)
    requires Unlinked(s.disk, Parent(a.path)) && !PlanGroup(hash, s.manifest, mode, plan, g).aborted
    ensures Planned(hash, s, mode, PlanGroup(hash, s.manifest, mode, plan, g), a)
  {
    hide PlanOk, Sane, Unlinked, Passable, PlanAssets, MakeRoots, Planned;
    RootsGoOn(hash, s, mode, all, plan, g.roots);
    RootsKeepPlan(hash, s, mode, all, plan, g.roots);
    AssetsArePlanned(hash, s, mode, all, plan.(disk := MakeRoots(plan.disk, g.roots).1), g.assets, a);
  }

  lemma {:induction false} GroupsStayPlanned(hash: string -> string, s: State, mode: Mode, plan: Plan, groups: seq<Group>, a: Asset)
    ensures plan.aborted ==> PlanGroups(hash, s.manifest, mode, plan, groups) == plan
    ensures Planned(hash, s, mode, plan, a) ==> Planned(hash, s, mode, PlanGroups(hash, s.manifest, mode, plan, groups), a)
    decreases groups
  {
    if groups != [] {
      hide PlanAssets, MakeRoots, Due;
      AssetsStayPlanned(hash, s, mode, plan.(disk := MakeRoots(plan.disk, groups[0].roots).1), groups[0].assets, a);
      GroupsStayPlanned(hash, s, mode, PlanGroup(hash, s.manifest, mode, plan, groups[0]), groups[1..], a);
    }
  }

  lemma {:induction false} PlannedInGroups(hash: string -> string, s: State, mode: Mode, all: seq<Asset>, plan: Plan, groups: seq<Group>, g: Group, a: Asset)
    requires PlanOk(hash, s, mode, all, plan) && Sane(all) && SaneRoots(groups, all) && (mode.Force? ==> NoneReplacesDirectory(s.disk, all))
    requires (forall b :: b in AssetsOf(groups) ==> b in all) && g in groups && a in g.assets
    requires forall r :: r in g.roots ==> Passable(s.disk, r) && Unlinked(s.disk, r)
    requires Unlinked(s.disk, Parent(a.path)) && !PlanGroups(hash, s.manifest, mode, plan, groups).aborted
    ensures Planned(hash, s, mode, PlanGroups(hash, s.manifest, mode, plan, groups), a)
    decreases groups
  {
    hide PlanOk, Sane, Unlinked, Passable, Planned, PlanGroup;
    var first, rest := groups[0], groups[1..];
    assert first in groups && forall h :: h in rest ==> h in groups;
    assert AssetsOf(groups) == first.assets + AssetsOf(rest);
    var next := PlanGroup(hash, s.manifest, mode, plan, first);
    PlanGroupKeeps(hash, s, mode, all, plan, groups);
    GroupsStayPlanned(hash, s, mode, next, rest, a);
    if g == first {
      PlannedInGroup(hash, s, mode, all, plan, g, a);
    } else {
      assert g in rest by { assert groups == [first] + rest; }
      PlannedInGroups(hash, s, mode, all, next, rest, g, a);
    }
  }

  /**
   What an install makes of each asset no symlink keeps it from: it writes exactly what is due, and records it as its
   own; a file it finds and does not know is left alone and recorded as found; nothing else changes there.
   */
  lemma InstallProvides(hash: string -> string, s: State, mode: Mode, groups: seq<Group>, g: Group, a: Asset)
    requires Placeable(s, mode, groups) && AllPassable(s.disk, groups) && g in groups && a in g.assets
    requires (forall r :: r in g.roots ==> Unlinked(s.disk, r)) && Unlinked(s.disk, Parent(a.path))
    requires forall b :: b in AssetsOf(groups) && b.path == a.path ==> b.content == a.content
    ensures var after := Install(hash, s, mode, groups);
            if Due(hash, s, mode, a.path) then
              && a.path in after.disk && after.disk[a.path] == File(a.content)
              && a.path in after.manifest && after.manifest[a.path] == hash(a.content) && a.path !in after.recovered
            else
              && a.path in after.disk && after.disk[a.path] == s.disk[a.path]
              && if s.disk[a.path].File? && a.path !in s.manifest
                 then a.path in after.manifest && after.manifest[a.path] == hash(s.disk[a.path].content) && a.path in after.recovered
                 else SameRecord(s, after, a.path)
  {
    var plan, all := PlanAll(hash, s, mode, groups), AssetsOf(groups);
    PlanKeeps(hash, s, mode, groups);
    InstallCompletes(hash, s, mode, groups);
    PlannedInGroups(hash, s, mode, all, Plan(s.disk, s.manifest, s.recovered, [], false), groups, g, a);
    InGroups(groups, g, a);
    LastAtIsWritten(plan.writes, a.path);
    WritesSucceed(hash, plan, plan.writes, all);
    hide PlanGroups, WriteAssets, Ready, Sane, Unlinked, Managed, LastAt;
  }

  /** The manifest says the same about the path. */
  ghost predicate SameRecord(before: State, after: State, path: Path) {
    && (path in after.manifest <==> path in before.manifest)
    && (path in after.manifest ==> after.manifest[path] == before.manifest[path] && (path in after.recovered <==> path in before.recovered))
  }

  lemma {:induction false} InGroups(groups: seq<Group>, g: Group, a: Asset)
    requires g in groups && a in g.assets
    ensures a in AssetsOf(groups)
  {
    if g != groups[0] {
      assert groups == [groups[0]] + groups[1..];
      InGroups(groups[1..], g, a);
    }
  }
}

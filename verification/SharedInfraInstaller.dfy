/** The shared infrastructure installer as it runs: one pass that plans, one that writes, then the manifest is saved. */
module SharedInfraInstaller {
  import opened SharedInfra
  import opened Wrappers

  /** Whatever exists has its parent directories. */
  ghost predicate Rooted(disk: Disk) {
    forall p, i :: p in disk && 0 < i < |p| ==> p[..i] in disk
  }

  lemma DirsStayRooted(disk: Disk, dir: Path)
    requires Rooted(disk)
    ensures Rooted(MakeDirs(disk, dir))
  {
    var made := MakeDirs(disk, dir);
    forall p, i | p in made && 0 < i < |p| ensures p[..i] in made {
      if p !in disk { assert p[..i] == dir[..i]; }
    }
  }

  /** The directories made for the first i parts. */
  lemma MakeDirsStep(disk: Disk, dir: Path, i: nat)
    requires i < |dir|
    ensures MakeDirs(disk, dir[..i + 1])
         == if dir[..i + 1] in MakeDirs(disk, dir[..i]) then MakeDirs(disk, dir[..i]) else MakeDirs(disk, dir[..i])[dir[..i + 1] := Directory]
  {
    assert Parent(dir[..i + 1]) == dir[..i];
  }

  lemma NoDirs(disk: Disk, dir: Path)
    ensures MakeDirs(disk, dir[..0]) == disk && dir[..|dir|] == dir
  {
  }

  lemma MadeAlready(disk: Disk, dir: Path, i: nat)
    requires i < |dir|
    ensures dir[..i + 1] in MakeDirs(disk, dir[..i]) <==> dir[..i + 1] in disk
  {
  }

  class Installer {
    const hash: string -> string
    var disk: Disk
    /** The manifest file. */
    var manifest: map<Path, string>
    var recovered: set<Path>
    /** The manifest and the plan of the current run. */
    var files: map<Path, string>
    var found: set<Path>
    var planned: seq<Asset>
    var aborted: bool

    constructor (hash: string -> string, s: State)
      ensures this.hash == hash && View() == s
    {
      this.hash := hash;
      disk, manifest, recovered := s.disk, s.manifest, s.recovered;
      files, found, planned, aborted := map[], {}, [], false;
    }

    function View(): State
      reads this
    {
      State(disk, manifest, recovered)
    }

    function Current(): Plan
      reads this
    {
      Plan(disk, files, found, planned, aborted)
    }

    /** Walk down a directory path, making what is missing. */
    method EnsureDirectory(dir: Path) returns (walk: Walk)
      modifies this`disk
      ensures walk == WalkTo(old(disk), dir)
      ensures walk == Clear ==> disk == MakeDirs(old(disk), dir)
      ensures walk != Clear && Rooted(old(disk)) ==> disk == old(disk)
    {
      hide MakeDirs, Rooted;
      ghost var start := disk;
      var i := 1;
      NoDirs(start, dir);
      while i <= |dir|
        invariant 1 <= i <= |dir| + 1
        invariant WalkTo(start, dir) == WalkFrom(start, dir, i)
        invariant disk == MakeDirs(start, dir[..i - 1])
      {
        MakeDirsStep(start, dir, i - 1);
        MadeAlready(start, dir, i - 1);
        var current := dir[..i];
        if current in disk && disk[current].Link? {
          NothingMade(start, dir, i);
          return Symlinked;
        }
        if current in disk && disk[current].File? {
          NothingMade(start, dir, i);
          return Blocked;
        }
        if current !in disk {
          disk := disk[current := Directory];
        }
        i := i + 1;
      }
      return Clear;
    }

    /** The check before a write: no symlink on the way and none in place. */
    method CheckDestination(path: Path) returns (walk: Walk)
      ensures walk == WalkTo(disk, Parent(path))
    {
      var dir := Parent(path);
      var i := 1;
      while i <= |dir|
        invariant 1 <= i <= |dir| + 1
        invariant WalkTo(disk, dir) == WalkFrom(disk, dir, i)
      {
        if dir[..i] in disk && disk[dir[..i]].Link? {
          return Symlinked;
        }
        if dir[..i] in disk && disk[dir[..i]].File? {
          return Blocked;
        }
        i := i + 1;
      }
      return Clear;
    }

    method PlanFile(mode: Mode, a: Asset)
      requires Rooted(disk)
      modifies this`disk, this`files, this`found, this`planned, this`aborted
      ensures Current() == PlanAsset(hash, manifest, mode, old(Current()), a) && Rooted(disk)
    {
      if aborted {
        return;
      }
      var walk := CheckDestination(a.path);
      if walk == Blocked {
        aborted := true;
        return;
      }
      if walk == Symlinked || (a.path in disk && disk[a.path].Link?) {
        return;
      }
      if Overwrites(hash, manifest, mode, Current(), a.path) {
        DirsStayRooted(disk, Parent(a.path));
        walk := EnsureDirectory(Parent(a.path));
        planned := planned + [a];
      } else if disk[a.path].File? && a.path !in manifest {
        files := files[a.path := hash(disk[a.path].content)];
        found := found + {a.path};
      }
    }

    method PlanFiles(mode: Mode, assets: seq<Asset>)
      requires Rooted(disk)
      modifies this`disk, this`files, this`found, this`planned, this`aborted
      ensures Current() == PlanAssets(hash, manifest, mode, old(Current()), assets) && Rooted(disk)
    {
      hide PlanAsset;
      assert assets[0..] == assets;
      for i := 0 to |assets|
        invariant Rooted(disk)
        invariant PlanAssets(hash, manifest, mode, Current(), assets[i..]) == PlanAssets(hash, manifest, mode, old(Current()), assets)
      {
        assert assets[i..][1..] == assets[i + 1..];
        PlanFile(mode, assets[i]);
      }
    }

    method EnsureRoots(roots: seq<Path>) returns (walk: Walk)
      requires Rooted(disk)
      modifies this`disk
      ensures (walk, disk) == MakeRoots(old(disk), roots) && Rooted(disk)
    {
      assert roots[0..] == roots;
      for i := 0 to |roots|
        invariant Rooted(disk) && MakeRoots(disk, roots[i..]) == MakeRoots(old(disk), roots)
      {
        assert roots[i..][1..] == roots[i + 1..];
        DirsStayRooted(disk, roots[i]);
        walk := EnsureDirectory(roots[i]);
        if walk != Clear {
          return;
        }
      }
      return Clear;
    }

    method PlanGroupFiles(mode: Mode, g: Group)
      requires Rooted(disk)
      modifies this`disk, this`files, this`found, this`planned, this`aborted
      ensures Current() == PlanGroup(hash, manifest, mode, old(Current()), g) && Rooted(disk)
    {
      if aborted {
        return;
      }
      var walk := EnsureRoots(g.roots);
      if walk == Blocked {
        aborted := true;
      } else if walk == Clear {
        PlanFiles(mode, g.assets);
      }
    }

    method WriteFile(a: Asset)
      modifies this`disk, this`files, this`found, this`aborted
      ensures Current() == WriteAsset(hash, old(Current()), a)
    {
      if aborted {
        return;
      }
      var walk := CheckDestination(a.path);
      if walk == Blocked {
        aborted := true;
        return;
      }
      if walk == Symlinked {
        return;
      }
      if a.path in disk && !disk[a.path].File? {
        aborted := true;
        return;
      }
      walk := EnsureDirectory(Parent(a.path));
      disk := disk[a.path := File(a.content)];
      files := files[a.path := hash(a.content)];
      found := found - {a.path};
    }

    /** Plan everything against the manifest as it was on entry, write what is planned, save the manifest. */
    method InstallSharedInfra(mode: Mode, groups: seq<Group>)
      requires Rooted(disk)
      modifies this
      ensures View() == Install(hash, old(View()), mode, groups)
    {
      hide PlanGroup, WriteAsset;
      ghost var s := View();
      files, found, planned, aborted := manifest, recovered, [], false;
      assert groups[0..] == groups;
      for i := 0 to |groups|
        invariant Rooted(disk) && manifest == s.manifest && recovered == s.recovered
        invariant PlanGroups(hash, manifest, mode, Current(), groups[i..]) == PlanAll(hash, s, mode, groups)
      {
        assert groups[i..][1..] == groups[i + 1..];
        PlanGroupFiles(mode, groups[i]);
      }
      var writes := planned;
      assert writes[0..] == writes;
      for i := 0 to |writes|
        invariant manifest == s.manifest && recovered == s.recovered
        invariant WriteAssets(hash, Current(), writes[i..]) == Done(hash, s, mode, groups)
      {
        assert writes[i..][1..] == writes[i + 1..];
        WriteFile(writes[i]);
      }
      if !aborted {
        manifest, recovered := files, found;
      }
    }

    /** Check every template's place and plan the missing and unchanged ones. */
    method PlanTemplates(root: Path, templates: seq<Template>, ghost s: State) returns (stopped: bool)
      requires planned == [] && manifest == s.manifest && WalkTo(s.disk, root) == Clear && disk == MakeDirs(s.disk, root)
      modifies this`planned
      ensures var assets := TemplateAssets(root, templates);
              && (stopped <==> LinkInPlace(s.disk, assets))
              && (!stopped ==> planned == Refreshed(hash, s, assets))
    {
      ghost var assets := TemplateAssets(root, templates);
      hide Refreshed, TemplateAssets, MakeDirs, WalkTo;
      assert assets[0..] == assets && assets[|assets|..] == [];
      NothingRefreshed(hash, s);
      for i := 0 to |templates|
        invariant planned + Refreshed(hash, s, assets[i..]) == Refreshed(hash, s, assets)
        invariant forall j :: 0 <= j < i ==> !(assets[j].path in s.disk && s.disk[assets[j].path].Link?)
      {
        var path := root + [templates[i].name];
        PlaceBelowRoot(s.disk, root, path);
        NextRefreshed(hash, s, assets, i);
        var walk := CheckDestination(path);
        if walk != Clear || (path in disk && disk[path].Link?) {
          assert assets[i] in assets;
          return true;
        }
        if path !in disk || (path in manifest && disk[path].File? && hash(disk[path].content) == manifest[path]) {
          planned := planned + [Asset(path, templates[i].content)];
        }
      }
      return false;
    }

    /** Rewrite the default templates in one directory, unless the user has changed them. */
    method RefreshSharedTemplates(root: Path, templates: seq<Template>)
      requires Rooted(disk)
      modifies this
      ensures View() == RefreshTemplates(hash, old(View()), root, templates)
    {
      hide TemplateAssets, Refreshed, LinkInPlace, MakeDirs, WriteAsset;
      ghost var s := View();
      files, found, planned, aborted := manifest, recovered, [], false;
      var walk := EnsureDirectory(root);
      if walk != Clear {
        return;
      }
      var stopped := PlanTemplates(root, templates, s);
      if stopped {
        return;
      }
      var writes := planned;
      ghost var plan := Current();
      assert writes[0..] == writes && writes[|writes|..] == [];
      for i := 0 to |writes|
        invariant manifest == s.manifest && recovered == s.recovered
        invariant WriteAssets(hash, Current(), writes[i..]) == WriteAssets(hash, plan, writes)
      {
        assert writes[i..][1..] == writes[i + 1..];
        WriteFile(writes[i]);
      }
      if !aborted {
        manifest, recovered := files, found;
      }
    }
  }

  lemma NothingRefreshed(hash: string -> string, s: State)
    ensures Refreshed(hash, s, []) == []
  {
  }

  lemma NextRefreshed(hash: string -> string, s: State, assets: seq<Asset>, i: nat)
    requires i < |assets|
    ensures Refreshed(hash, s, assets[i..])
         == (if assets[i].path !in s.disk || RefreshOverwrites(hash, s, assets[i].path) then [assets[i]] else []) + Refreshed(hash, s, assets[i + 1..])
  {
    assert assets[i..][1..] == assets[i + 1..];
  }

  /** Making the directory changes nothing at a template's place, and leaves the way to it clear. */
  lemma PlaceBelowRoot(disk: Disk, root: Path, path: Path)
    requires |path| == |root| + 1 && root < path && WalkTo(disk, root) == Clear
    ensures var made := MakeDirs(disk, root);
            && WalkTo(made, Parent(path)) == Clear
            && (path in made <==> path in disk) && (path in disk ==> made[path] == disk[path])
  {
    assert Parent(path) == root;
    WalkIsClear(disk, root, 1);
    WalkIsClear(MakeDirs(disk, root), root, 1);
  }

  lemma NothingMade(disk: Disk, dir: Path, i: nat)
    requires 0 < i <= |dir| && dir[..i] in MakeDirs(disk, dir[..i - 1])
    ensures Rooted(disk) ==> MakeDirs(disk, dir[..i - 1]) == disk
  {
    MadeAlready(disk, dir, i - 1);
    if Rooted(disk) {
      var upper := dir[..i - 1];
      forall j | 1 <= j <= |upper| ensures upper[..j] in disk {
        assert upper[..j] == dir[..i][..j];
      }
      NothingToMake(disk, dir[..i - 1]);
    }
  }

  // ---- the other way to refresh ----------------------------------------------------------------

  /** A file found by a first install and never written by the tool is replaced by the template refresh, and is the tool's from then on. */
  lemma FoundFileIsRefreshed(hash: string -> string, content: string)
    requires content != "new"
    ensures var found := State(map[["f"] := File(content)], map[], {});
            var w := Step(hash, World(found, map[]), InstallShared(Default, [Group([], [Asset(["f"], "new")])]));
            var w' := Step(hash, w, Refresh([], [Template("f", "new")]));
            && w.last == map[] && w.state.disk == found.disk
            && w'.state.disk == map[["f"] := File("new")] && w'.state.recovered == {}
            && Managed(hash, w'.state.manifest, w'.state.recovered, w'.state.disk, ["f"]) == (hash("new") != "")
  {
    var path: Path := ["f"];
    var a := Asset(path, "new");
    var s := State(map[path := File(content)], map[], {});
    var groups := [Group([], [a])];
    var start := Plan(s.disk, s.manifest, s.recovered, [], false);
    var plan := start.(manifest := map[path := hash(content)], recovered := {path});
    assert Parent(path) == [];
    assert PlanAsset(hash, map[], Default, start, a) == plan;
    assert [a][1..] == [] && groups[1..] == [];
    assert PlanAssets(hash, map[], Default, start, [a]) == plan;
    assert PlanGroup(hash, map[], Default, start, groups[0]) == plan;
    assert PlanGroups(hash, map[], Default, start, groups) == plan;
    OneRefreshed(hash, State(s.disk, plan.manifest, plan.recovered), content);
  }

  lemma OneRefreshed(hash: string -> string, s: State, content: string)
    requires s == State(map[["f"] := File(content)], map[["f"] := hash(content)], {["f"]})
    ensures RefreshTemplates(hash, s, [], [Template("f", "new")]) == State(map[["f"] := File("new")], map[["f"] := hash("new")], {})
  {
    var a := Asset(["f"], "new");
    var templates := [Template("f", "new")];
    assert templates[1..] == [] && [] + ["f"] == ["f"];
    assert TemplateAssets([], templates) == [a];
    assert [a][1..] == [] && Refreshed(hash, s, [a]) == [a] + [] == [a];
    assert Parent(["f"]) == [];
    var plan := Plan(s.disk, s.manifest, s.recovered, [a], false);
    assert WriteAssets(hash, plan, [a]) == WriteAsset(hash, plan, a);
  }
}

/** The staged bundle path by path: what stands at each path of a good table, that nothing else does, and
    what one step does at a path that is taken. */
module StagedLayout {
  import opened Outcomes
  import opened StagedBinaries

  // ---------- one step ----------

  /** Where nothing stands, anything is made. */
  lemma PutNew(tree: Tree, path: Path, node: Node)
    requires path !in tree
    ensures Put(tree, path, node) == Success(tree[path := node])
  {}

  /** Where something stands: folders and links are refused, and a file replaces only a file. */
  lemma PutTaken(tree: Tree, path: Path, node: Node)
    requires path in tree && (tree[path].Link? ==> !node.File?)
    ensures Put(tree, path, node) ==
            if node.File? && tree[path].File? then Success(tree[path := node]) else Failure(path)
  {}

  /** A file copied onto a link lands where the link leads: on a file there, or, where there is nothing,
      in a folder; not on a folder. A link to itself leads nowhere. */
  lemma PutThrough(tree: Tree, dir: Path, name: string, content: Content)
    requires dir + [name] in tree && tree[dir + [name]].Link?
    ensures var path, next := dir + [name], Walk(dir, tree[dir + [name]].to);
            var r := Put(tree, path, File(content));
            && (next in tree && tree[next].File? ==> r == Success(tree[next := File(content)]))
            && (next in tree && tree[next].Dir? ==> r == Failure(path))
            && (next == path ==> r == Failure(path))
            && (next !in tree ==>
                  var in_folder := next != [] && (next[..|next| - 1] == ["Contents", "MacOS"] ||
                                                  (next[..|next| - 1] in tree && tree[next[..|next| - 1]].Dir?));
                  r == if in_folder then Success(tree[next := File(content)]) else Failure(path))
  {
    hide Walk;
    var path := dir + [name];
    assert path[..|path| - 1] == dir;
    assert |tree| > 0 by { assert path in tree.Keys; }
    var next := Walk(dir, tree[path].to);
    if next == path {
      Circle(tree, path, |tree|);
    } else if next !in tree || !tree[next].Link? {
      assert Target(tree, next, |tree| - 1) == Some(next);
      assert Target(tree, path, |tree|) == Some(next);
    }
  }

  lemma {:induction false} Circle(tree: Tree, path: Path, steps: nat)
    requires path in tree && tree[path].Link? && path != [] && Walk(path[..|path| - 1], tree[path].to) == path
    ensures Target(tree, path, steps) == None
    decreases steps
  {
    if steps > 0 { Circle(tree, path, steps - 1); }
  }

  // ---------- the whole bundle ----------

  /** The alias table names the helper, as the script asks with `in`. */
  ghost predicate Aliased(t: Tables, name: string) {
    exists i | 0 <= i < |t.aliases| :: t.aliases[i].0 == name
  }

  lemma InHelperPlan(t: Tables, tree: Tree, k: nat, i: nat)
    requires Good(t) && Perform(map[], Plan(t)) == Success(tree) && k < |t.helpers| && i < |OwnPlan(t, t.helpers[k])|
    ensures Holds(tree, OwnPlan(t, t.helpers[k])[i].place, OwnPlan(t, t.helpers[k])[i].node)
  {
    hide OwnPlan, PathOf, Perform, Plan, SiblingPlan, Good;
    var a := OwnPlan(t, t.helpers[k])[i];
    HelperInPlan(t, k, a);
    PlannedHolds(t, tree, a.place, a.node);
  }

  /** A helper's bundle: two folders, its binary or the link to the Station binary it reuses, the
      launcher for such a helper, icon, Info.plist, and the entry point in the main folder. */
  lemma HelperStaged(t: Tables, tree: Tree, k: nat)
    requires Good(t) && Perform(map[], Plan(t)) == Success(tree) && k < |t.helpers|
    ensures var h, aliased := t.helpers[k], Aliased(t, t.helpers[k].name);
            var inside := ["Contents", "Helpers", h.bundle + ".app", "Contents"];
            && inside + ["MacOS"] in tree && tree[inside + ["MacOS"]] == Dir
            && inside + ["Resources"] in tree && tree[inside + ["Resources"]] == Dir
            && inside + ["Resources", h.bundle + ".icns"] in tree
            && tree[inside + ["Resources", h.bundle + ".icns"]] == File(Icon(h.bundle))
            && inside + ["Info.plist"] in tree
            && tree[inside + ["Info.plist"]] ==
               File(Info(h.role, if aliased then "ZorkHelperLauncher" else h.name,
                         if aliased then Some(h.name) else None, h.bundle + ".icns",
                         h.role == "station" || h.role == "supervisor"))
            && inside + ["MacOS", h.name] in tree
            && (!aliased ==> tree[inside + ["MacOS", h.name]] == File(Binary(h.name)))
            && (aliased ==> inside + ["MacOS", "ZorkHelperLauncher"] in tree &&
                            tree[inside + ["MacOS", "ZorkHelperLauncher"]] == File(Launcher))
            && ["Contents", "MacOS", h.name] in tree
            && tree[["Contents", "MacOS", h.name]] ==
               Link(["..", "Helpers", h.bundle + ".app", "Contents", "MacOS",
                     if aliased then "ZorkHelperLauncher" else h.name])
  {
    hide Perform, Plan, SiblingPlan, Good, RelPath, LinkTo;
    var h := t.helpers[k];
    assert Plain(h.name) by { PlainHelper(t, k); }
    var own := OwnPlan(t, h);
    var n := |own|;
    InHelperPlan(t, tree, k, 0);
    InHelperPlan(t, tree, k, 1);
    InHelperPlan(t, tree, k, 2);
    InHelperPlan(t, tree, k, 3);
    InHelperPlan(t, tree, k, n - 3);
    InHelperPlan(t, tree, k, n - 2);
    InHelperPlan(t, tree, k, n - 1);
    HelperPaths(h.bundle, h.name);
    HelperPaths(h.bundle, LAUNCHER);
    EntryLink(h.bundle, Entry(t, h.name));
  }

  lemma PlainHelper(t: Tables, k: nat)
    requires Good(t) && k < |t.helpers|
    ensures Plain(t.helpers[k].name)
  {}

  lemma HelperPaths(bundle: string, name: string)
    ensures var inside := ["Contents", "Helpers", bundle + ".app", "Contents"];
            && PathOf(Folder(bundle)) == inside + ["MacOS"]
            && PathOf(Resources(bundle)) == inside + ["Resources"]
            && PathOf(IconFile(bundle)) == inside + ["Resources", bundle + ".icns"]
            && PathOf(Plist(bundle)) == inside + ["Info.plist"]
            && PathOf(Inside(bundle, name)) == inside + ["MacOS", name]
            && PathOf(Inside(bundle, name)) == ["Contents", "Helpers", bundle + ".app", "Contents", "MacOS", name]
            && PathOf(Main(name)) == ["Contents", "MacOS", name]
  {}

  lemma RelStep(x: string, target: Path, start: Path)
    ensures RelPath([x] + target, [x] + start) == RelPath(target, start)
  {}

  lemma EntryLink(bundle: string, entry: string)
    ensures LinkTo(Inside(bundle, entry), MAIN) ==
            Link(["..", "Helpers", bundle + ".app", "Contents", "MacOS", entry])
  {
    var target := ["Helpers", bundle + ".app", "Contents", "MacOS", entry];
    assert PathOf(Inside(bundle, entry)) == ["Contents"] + target && MAIN == ["Contents"] + ["MacOS"];
    RelStep("Contents", target, ["MacOS"]);
    assert |"Helpers"| == 7 && |"MacOS"| == 5;
    assert Ups(1) == [".."];
  }

  /** Every other name of the runtime stands beside a helper's binary as a link to the main folder. */
  lemma SiblingStaged(t: Tables, tree: Tree, k: nat, name: string)
    requires Good(t) && Perform(map[], Plan(t)) == Success(tree) && k < |t.helpers|
    requires (name in t.components || Aliased(t, name)) && name != t.helpers[k].name
    ensures var path := ["Contents", "Helpers", t.helpers[k].bundle + ".app", "Contents", "MacOS", name];
            path in tree && tree[path] == Link(["..", "..", "..", "..", "MacOS", name])
  {
    hide Perform, Plan, SiblingPlan, Good, RelPath, LinkTo, OwnPlan;
    var h := t.helpers[k];
    SiblingName(t, name);
    SiblingPlanned(h, Siblings(t), name);
    HelperInPlan(t, k, Action(Inside(h.bundle, name), LinkTo(Main(name), FolderOf(h.bundle))));
    PlannedHolds(t, tree, Inside(h.bundle, name), LinkTo(Main(name), FolderOf(h.bundle)));
    HelperPaths(h.bundle, name);
    SiblingLink(h.bundle, name);
  }

  lemma SiblingName(t: Tables, name: string)
    ensures name in Siblings(t) <==> name in t.components || Aliased(t, name)
  {
    var names := Siblings(t);
    forall i | 0 <= i < |t.aliases| ensures t.aliases[i].0 in names {
      assert names[|t.components| + i] == t.aliases[i].0;
    }
    forall i | 0 <= i < |t.components| ensures t.components[i] in names { assert names[i] == t.components[i]; }
    if name in names {
      var i :| 0 <= i < |names| && names[i] == name;
      if i >= |t.components| { assert t.aliases[i - |t.components|].0 == name; }
    }
  }

  lemma SiblingLink(bundle: string, name: string)
    ensures LinkTo(Main(name), FolderOf(bundle)) == Link(["..", "..", "..", "..", "MacOS", name])
  {
    var start := ["Helpers", bundle + ".app", "Contents", "MacOS"];
    assert PathOf(Main(name)) == ["Contents"] + ["MacOS", name] && FolderOf(bundle) == ["Contents"] + start;
    RelStep("Contents", ["MacOS", name], start);
    assert |"Helpers"| == 7 && |"MacOS"| == 5;
    FourUps();
  }

  lemma FourUps()
    ensures Ups(4) == ["..", "..", "..", ".."]
  {
    assert Ups(2) == ["..", ".."];
    assert Ups(3) == ["..", "..", ".."];
  }

  /** The helper that reuses a Station binary links to it. */
  lemma AliasStaged(t: Tables, tree: Tree, k: nat, i: nat)
    requires Good(t) && Perform(map[], Plan(t)) == Success(tree)
    requires k < |t.helpers| && i < |t.aliases| && t.aliases[i].0 == t.helpers[k].name
    ensures var path := ["Contents", "Helpers", t.helpers[k].bundle + ".app", "Contents", "MacOS", t.helpers[k].name];
            path in tree &&
            tree[path] == Link(["..", "..", "..", "ZorkStation.app", "Contents", "MacOS", t.aliases[i].1])
  {
    hide Perform, Plan, SiblingPlan, Good, RelPath, LinkTo;
    var h := t.helpers[k];
    AliasesDiffer(t);
    FirstTarget(t, h.name, i, 0);
    OutsideStation(t, k, i);
    InHelperPlan(t, tree, k, 2);
    HelperPaths(h.bundle, h.name);
    StationLink(h.bundle, t.aliases[i].1);
  }

  lemma AliasesDiffer(t: Tables)
    requires Good(t)
    ensures forall i, j | 0 <= i < j < |t.aliases| :: t.aliases[i].0 != t.aliases[j].0
  {
    var names := Siblings(t);
    assert forall i | 0 <= i < |t.aliases| :: names[|t.components| + i] == t.aliases[i].0;
  }

  lemma {:induction false} FirstTarget(t: Tables, name: string, i: nat, k: nat)
    requires k <= i < |t.aliases| && t.aliases[i].0 == name
    requires forall i, j | 0 <= i < j < |t.aliases| :: t.aliases[i].0 != t.aliases[j].0
    ensures AliasTarget(t, name, k) == t.aliases[i].1
    decreases i - k
  {
    if k < i { FirstTarget(t, name, i, k + 1); }
  }

  lemma OutsideStation(t: Tables, k: nat, i: nat)
    requires Good(t) && k < |t.helpers| && i < |t.aliases| && t.aliases[i].0 == t.helpers[k].name
    ensures t.helpers[k].bundle != STATION
  {
    assert HostedInStation(t, t.aliases[i].1) && IsAlias(t, t.helpers[k].name);
    var s :| 0 <= s < |t.helpers| && t.helpers[s].bundle == STATION && t.helpers[s].name == t.aliases[i].1;
    assert s != k;
  }

  lemma StationLink(bundle: string, target: string)
    requires bundle != STATION
    ensures LinkTo(Inside(STATION, target), FolderOf(bundle)) ==
            Link(["..", "..", "..", "ZorkStation.app", "Contents", "MacOS", target])
  {
    var a, b := STATION + ".app", bundle + ".app";
    assert a != b by {
      assert a[..|a| - 4] == STATION && b[..|b| - 4] == bundle;
    }
    assert a == "ZorkStation.app";
    var to, start := [a, "Contents", "MacOS", target], [b, "Contents", "MacOS"];
    assert PathOf(Inside(STATION, target)) == ["Contents"] + (["Helpers"] + to);
    assert FolderOf(bundle) == ["Contents"] + (["Helpers"] + start);
    RelStep("Contents", ["Helpers"] + to, ["Helpers"] + start);
    RelStep("Helpers", to, start);
    assert RelPath(to, start) == Ups(3) + to;
    assert Ups(2) == ["..", ".."];
  }

  /** A component that is no helper is a binary in the main folder. */
  lemma ComponentStaged(t: Tables, tree: Tree, name: string)
    requires Good(t) && Perform(map[], Plan(t)) == Success(tree)
    requires name in t.components && forall i | 0 <= i < |t.helpers| :: t.helpers[i].name != name
    ensures ["Contents", "MacOS", name] in tree && tree[["Contents", "MacOS", name]] == File(Binary(name))
  {
    hide Perform, HelperPlans, Good;
    HelperPaths("", name);
    ComponentPlanned(t, t.components, name);
    PlannedHolds(t, tree, Main(name), File(Binary(name)));
  }

  // ---------- and nothing else ----------

  lemma {:induction false} OnlyPlanned(tree: Tree, actions: seq<Action>, path: Path)
    requires forall i | 0 <= i < |actions| :: PathOf(actions[i].place) !in tree
    requires Different(actions)
    requires Perform(tree, actions).Success? && path in Perform(tree, actions).value && path !in tree
    ensures exists i | 0 <= i < |actions| :: PathOf(actions[i].place) == path
    decreases |actions|
  {
    hide PathOf, Put;
    if actions != [] {
      PutNew(tree, PathOf(actions[0].place), actions[0].node);
      var next := tree[PathOf(actions[0].place) := actions[0].node];
      if path in next {
        assert PathOf(actions[0].place) == path;
      } else {
        forall i | 0 <= i < |actions[1..]| ensures PathOf(actions[1..][i].place) !in next {
          assert actions[1..][i] == actions[i + 1];
          if PathOf(actions[i + 1].place) == PathOf(actions[0].place) {
            PathsDiffer(actions[i + 1].place, actions[0].place);
          }
        }
        OnlyPlanned(next, actions[1..], path);
        var i :| 0 <= i < |actions[1..]| && PathOf(actions[1..][i].place) == path;
        assert actions[i + 1] == actions[1..][i];
      }
    }
  }

  /** The path is one that stands in a helper's bundle. */
  ghost predicate InBundle(t: Tables, h: Helper, path: Path) {
    var inside := ["Contents", "Helpers", h.bundle + ".app", "Contents"];
    || path == inside + ["MacOS"] || path == inside + ["Resources"] || path == inside + ["Info.plist"]
    || path == inside + ["Resources", h.bundle + ".icns"]
    || (Aliased(t, h.name) && path == inside + ["MacOS", "ZorkHelperLauncher"])
    || (|path| == 6 && path[..5] == inside + ["MacOS"] &&
        (path[5] == h.name || path[5] in t.components || Aliased(t, path[5])))
  }

  /** Nothing else is staged: every path is an entry of the main folder, for a component or a helper, or
      one of a helper's bundle. */
  lemma NothingElse(t: Tables, tree: Tree, path: Path)
    requires Good(t) && Perform(map[], Plan(t)) == Success(tree) && path in tree
    ensures || (|path| == 3 && path[..2] == ["Contents", "MacOS"] &&
                (path[2] in t.components || exists k | 0 <= k < |t.helpers| :: t.helpers[k].name == path[2]))
            || exists k | 0 <= k < |t.helpers| :: InBundle(t, t.helpers[k], path)
  {
    hide Perform, Good, PathOf, InBundle, Plan;
    PlanPlaces(t);
    OnlyPlanned(map[], Plan(t), path);
    var i :| 0 <= i < |Plan(t)| && PathOf(Plan(t)[i].place) == path;
    PlannedWhere(t, Plan(t)[i]);
    var p := Plan(t)[i].place;
    if p.Main? {
      MainPath(p.name);
    } else {
      var k :| 0 <= k < |t.helpers| && OwnPlace(t, t.helpers[k], p);
      BundlePath(t, t.helpers[k], p);
    }
  }

  lemma MainPath(name: string)
    ensures var path := PathOf(Main(name)); |path| == 3 && path[..2] == ["Contents", "MacOS"] && path[2] == name
  {}

  /** A place in a helper's bundle that the plan uses. */
  ghost predicate OwnPlace(t: Tables, h: Helper, p: Place) {
    && !p.Main? && p.bundle == h.bundle
    && (p.Inside? ==> || p.name == h.name || p.name in t.components || Aliased(t, p.name)
                      || (Aliased(t, h.name) && p.name == LAUNCHER))
  }

  lemma BundlePath(t: Tables, h: Helper, p: Place)
    requires OwnPlace(t, h, p)
    ensures InBundle(t, h, PathOf(p))
  {
    if p.Inside? { HelperPaths(p.bundle, p.name); } else { HelperPaths(p.bundle, ""); }
  }

  ghost predicate Where(t: Tables, p: Place) {
    if p.Main? then p.name in t.components || exists k | 0 <= k < |t.helpers| :: t.helpers[k].name == p.name
    else exists k | 0 <= k < |t.helpers| :: OwnPlace(t, t.helpers[k], p)
  }

  lemma PlannedWhere(t: Tables, a: Action)
    requires Good(t) && a in Plan(t)
    ensures Where(t, a.place)
  {
    hide Good, HelperPlans, ComponentPlan;
    if a in ComponentPlan(t, t.components) {
      ComponentWhere(t, t.components, a);
    } else {
      assert t.helpers[0..] == t.helpers;
      HelpersWhere(t, 0, a);
    }
  }

  lemma {:induction false} ComponentWhere(t: Tables, names: seq<string>, a: Action)
    requires a in ComponentPlan(t, names)
    ensures a.place.Main? && a.place.name in names
  {
    if names != [] {
      if a in ComponentPlan(t, names[1..]) { ComponentWhere(t, names[1..], a); }
    }
  }

  lemma {:induction false} HelpersWhere(t: Tables, k: nat, a: Action)
    requires Good(t) && k <= |t.helpers| && a in HelperPlans(t, t.helpers[k..])
    ensures Where(t, a.place)
    decreases |t.helpers| - k
  {
    hide Good, HelperPlan, Where;
    if k < |t.helpers| {
      assert t.helpers[k..][1..] == t.helpers[k + 1..];
      if a in HelperPlans(t, t.helpers[k + 1..]) {
        HelpersWhere(t, k + 1, a);
      } else {
        HelperWhere(t, k, a);
      }
    }
  }

  lemma HelperWhere(t: Tables, k: nat, a: Action)
    requires Good(t) && k < |t.helpers| && a in HelperPlan(t, t.helpers[k])
    ensures Where(t, a.place)
  {
    hide Good, SiblingPlan, OwnPlan, Aliased;
    var h := t.helpers[k];
    if a in OwnPlan(t, h) {
      OwnWhere(t, k, a);
    } else {
      SiblingWhere(h, Siblings(t), a);
      SiblingName(t, a.place.name);
    }
  }

  lemma OwnWhere(t: Tables, k: nat, a: Action)
    requires Good(t) && k < |t.helpers| && a in OwnPlan(t, t.helpers[k])
    ensures Where(t, a.place)
  {
    hide Good, OwnNode, InfoOf, LinkTo;
    PlainHelper(t, k);
    assert Entry(t, t.helpers[k].name) == LAUNCHER ==> Aliased(t, t.helpers[k].name);
    assert a.place == Main(t.helpers[k].name) || OwnPlace(t, t.helpers[k], a.place);
  }

  lemma {:induction false} SiblingWhere(h: Helper, names: seq<string>, a: Action)
    requires a in SiblingPlan(h, names)
    ensures a.place.Inside? && a.place.bundle == h.bundle && a.place.name in names
  {
    if names != [] {
      if a in SiblingPlan(h, names[1..]) { SiblingWhere(h, names[1..], a); }
    }
  }

  // ---------- the shipped bundle ----------

  ghost predicate HelperIs(tree: Tree, app: string, name: string, role: string, network: bool) {
    var inside := ["Contents", "Helpers", app, "Contents"];
    && inside + ["Info.plist"] in tree && inside + ["MacOS", name] in tree && ["Contents", "MacOS", name] in tree
    && tree[inside + ["Info.plist"]].File? && tree[inside + ["Info.plist"]].content.Info?
    && tree[inside + ["Info.plist"]].content.role == role && tree[inside + ["Info.plist"]].content.network == network
    && tree[inside + ["Info.plist"]].content.executable == name
    && tree[inside + ["MacOS", name]] == File(Binary(name))
    && tree[["Contents", "MacOS", name]] == Link(["..", "Helpers", app, "Contents", "MacOS", name])
  }

  ghost predicate WatchIs(tree: Tree) {
    var inside := ["Contents", "Helpers", "ZorkServiceWatch.app", "Contents"];
    && inside + ["Info.plist"] in tree && inside + ["MacOS", "ZorkHelperLauncher"] in tree
    && ["Contents", "Helpers", "ZorkServiceWatch.app", "Contents", "MacOS", "zork-service-watch"] in tree
    && tree[inside + ["Info.plist"]] ==
       File(Info("service-watch", "ZorkHelperLauncher", Some("zork-service-watch"), "ZorkServiceWatch.icns", false))
    && tree[inside + ["MacOS", "ZorkHelperLauncher"]] == File(Launcher)
    && tree[["Contents", "Helpers", "ZorkServiceWatch.app", "Contents", "MacOS", "zork-service-watch"]] ==
       Link(["..", "..", "..", "ZorkStation.app", "Contents", "MacOS", "zork-station"])
  }

  /** The product: three plain binaries, the Supervisor and the Station with theirs, and the service watch
      with its launcher and the link to the Station binary. */
  lemma ProductStaged(tree: Tree)
    requires Perform(map[], Plan(Product())) == Success(tree)
    ensures forall name | name in {"zork-gui", "zork-agent", "zork-gh"} ::
              ["Contents", "MacOS", name] in tree && tree[["Contents", "MacOS", name]] == File(Binary(name))
    ensures HelperIs(tree, "ZorkSupervisor.app", "zork", "supervisor", true)
    ensures HelperIs(tree, "ZorkStation.app", "zork-station", "station", true)
    ensures WatchIs(tree)
  {
    hide Perform, Plan, Good, HelperIs, WatchIs;
    var t := Product();
    ProductIsGood();
    ProductRows();
    forall name | name in {"zork-gui", "zork-agent", "zork-gh"}
      ensures ["Contents", "MacOS", name] in tree && tree[["Contents", "MacOS", name]] == File(Binary(name))
    {
      NoHelperName(name);
      ComponentStaged(t, tree, name);
    }
    HelperShown(t, tree, 0);
    HelperShown(t, tree, 1);
    WatchShown(t, tree);
  }

  lemma HelperShown(t: Tables, tree: Tree, k: nat)
    requires Good(t) && Perform(map[], Plan(t)) == Success(tree)
    requires k < |t.helpers| && !Aliased(t, t.helpers[k].name)
    ensures var h := t.helpers[k];
            HelperIs(tree, h.bundle + ".app", h.name, h.role, h.role == "station" || h.role == "supervisor")
  {
    hide Perform, Plan, Good, Aliased;
    HelperStaged(t, tree, k);
  }

  lemma WatchShown(t: Tables, tree: Tree)
    requires t == Product() && Good(t) && Perform(map[], Plan(t)) == Success(tree) && Aliased(t, "zork-service-watch")
    ensures WatchIs(tree)
  {
    hide Perform, Plan, Good, Aliased;
    HelperStaged(t, tree, 2);
    AliasStaged(t, tree, 2, 0);
    ProductRows();
  }

  lemma NoHelperName(name: string)
    requires name in {"zork-gui", "zork-agent", "zork-gh"}
    ensures name in Product().components
    ensures forall i | 0 <= i < 3 :: Product().helpers[i].name != name
  {
    var c := Product().components;
    assert c[0] in c && c[3] in c && c[4] in c;
    assert |name| == 8 || |name| == 10 || |name| == 7;
    assert |"zork"| == 4 && |"zork-station"| == 12 && |"zork-service-watch"| == 18;
  }

  lemma ProductRows()
    ensures Aliased(Product(), "zork-service-watch")
    ensures !Aliased(Product(), "zork") && !Aliased(Product(), "zork-station")
    ensures "ZorkSupervisor" + ".app" == "ZorkSupervisor.app" && STATION + ".app" == "ZorkStation.app"
    ensures "ZorkServiceWatch" + ".app" == "ZorkServiceWatch.app"
    ensures "ZorkServiceWatch" + ".icns" == "ZorkServiceWatch.icns"
    ensures "service-watch" != "station" && "service-watch" != "supervisor"
  {
    assert Product().aliases[0].0 == "zork-service-watch";
    assert |"zork"| == 4 && |"zork-station"| == 12 && |"zork-service-watch"| == 18;
    assert |"service-watch"| == 13 && |"station"| == 7 && |"supervisor"| == 10;
  }
}

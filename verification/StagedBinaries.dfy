/** The layout of binaries, launchers and links that `stage_binaries` of
    scripts/package-macos-client.py builds inside an application bundle. */
module StagedBinaries {
  import opened Outcomes

  type Path = seq<string>

  /** What a file holds; of an Info.plist the fields that follow from the tables: the role at the end of
      the identifier, executable, ZorkRuntimeExecutable, icon, and whether it asks for the local network. */
  datatype Content =
    | Binary(name: string)
    | Launcher
    | Icon(bundle: string)
    | Info(role: string, executable: string, runtime: Option<string>, icon: string, network: bool)

  datatype Node = Dir | File(content: Content) | Link(to: Path)

  type Tree = map<Path, Node>

  datatype Helper = Helper(name: string, bundle: string, role: string)

  /** COMPONENTS, HELPERS and RUNTIME_ALIASES; an alias maps a helper's name to the binary it reuses. */
  datatype Tables = Tables(components: seq<string>, helpers: seq<Helper>, aliases: seq<(string, string)>)

  const STATION := "ZorkStation"
  const LAUNCHER := "ZorkHelperLauncher"

  // ---------- places and relative links ----------

  datatype Place =
    | Main(name: string)                       // Contents/MacOS/name
    | Folder(bundle: string)                   // the helper's Contents/MacOS
    | Inside(bundle: string, name: string)     // and an entry in it
    | Resources(bundle: string)
    | IconFile(bundle: string)
    | Plist(bundle: string)

  const MAIN: Path := ["Contents", "MacOS"]

  function FolderOf(bundle: string): Path {
    ["Contents", "Helpers", bundle + ".app", "Contents", "MacOS"]
  }

  function PathOf(p: Place): Path {
    match p
    case Main(n) => MAIN + [n]
    case Folder(b) => FolderOf(b)
    case Inside(b, n) => FolderOf(b) + [n]
    case Resources(b) => ["Contents", "Helpers", b + ".app", "Contents", "Resources"]
    case IconFile(b) => ["Contents", "Helpers", b + ".app", "Contents", "Resources", b + ".icns"]
    case Plist(b) => ["Contents", "Helpers", b + ".app", "Contents", "Info.plist"]
  }

  lemma PathsDiffer(p: Place, q: Place)
    requires PathOf(p) == PathOf(q)
    ensures p == q
  {
    var a, b := PathOf(p), PathOf(q);
    assert |a| == |b|;
    if |a| == 3 {
      assert a[2] == p.name && b[2] == q.name;
    } else {
      assert a[2] == p.bundle + ".app" && b[2] == q.bundle + ".app" && a[4] == b[4];
      assert p.bundle == a[2][..|a[2]| - 4] == q.bundle;
      if |a| == 6 && p.Inside? && q.Inside? { assert a[5] == p.name && b[5] == q.name; }
    }
  }

  function Ups(n: nat): Path {
    if n == 0 then [] else [".."] + Ups(n - 1)
  }

  /** `os.path.relpath(target, start)` */
  function RelPath(target: Path, start: Path): Path {
    if target != [] && start != [] && target[0] == start[0] then RelPath(target[1..], start[1..])
    else Ups(|start|) + target
  }

  /** Following a relative path from a directory. */
  function Walk(dir: Path, rel: Path): Path
    decreases |rel|
  {
    if rel == [] then dir
    else if rel[0] == ".." then Walk(if dir == [] then [] else dir[..|dir| - 1], rel[1..])
    else Walk(dir + [rel[0]], rel[1..])
  }

  lemma {:induction false} WalkUp(base: Path, start: Path, rest: Path)
    ensures Walk(base + start, Ups(|start|) + rest) == Walk(base, rest)
    decreases |start|
  {
    if start == [] {
      assert base + start == base && Ups(0) + rest == rest;
    } else {
      var n := |start| - 1;
      assert (Ups(|start|) + rest)[1..] == Ups(n) + rest;
      assert (base + start)[..|base + start| - 1] == base + start[..n];
      WalkUp(base, start[..n], rest);
    }
  }

  lemma {:induction false} WalkDown(base: Path, rest: Path)
    requires ".." !in rest
    ensures Walk(base, rest) == base + rest
    decreases |rest|
  {
    if rest != [] {
      assert ".." !in rest[1..];
      WalkDown(base + [rest[0]], rest[1..]);
      assert base + [rest[0]] + rest[1..] == base + rest;
    }
  }

  /** A link made with `relpath` leads from its directory to its target. */
  lemma {:induction false} RelPathLeads(base: Path, target: Path, start: Path)
    requires ".." !in target
    ensures Walk(base + start, RelPath(target, start)) == base + target
    decreases |start|
  {
    if target != [] && start != [] && target[0] == start[0] {
      assert ".." !in target[1..];
      RelPathLeads(base + [start[0]], target[1..], start[1..]);
      assert base + [start[0]] + start[1..] == base + start && base + [target[0]] + target[1..] == base + target;
    } else {
      WalkUp(base, start, target);
      WalkDown(base, target);
    }
  }

  // ---------- what is created, in order ----------

  datatype Action = Action(place: Place, node: Node)

  function LinkTo(target: Place, dir: Path): Node {
    Link(RelPath(PathOf(target), dir))
  }

  predicate IsHelper(t: Tables, name: string) {
    exists i | 0 <= i < |t.helpers| :: t.helpers[i].name == name
  }

  predicate IsAlias(t: Tables, name: string) {
    exists i | 0 <= i < |t.aliases| :: t.aliases[i].0 == name
  }

  function AliasTarget(t: Tables, name: string, k: nat := 0): string
    requires k <= |t.aliases|
    decreases |t.aliases| - k
  {
    if k == |t.aliases| then name else if t.aliases[k].0 == name then t.aliases[k].1 else AliasTarget(t, name, k + 1)
  }

  function Entry(t: Tables, name: string): string {
    if IsAlias(t, name) then LAUNCHER else name
  }

  /** `[*COMPONENTS, *RUNTIME_ALIASES]` */
  function Siblings(t: Tables): seq<string> {
    t.components + seq(|t.aliases|, i requires 0 <= i < |t.aliases| => t.aliases[i].0)
  }

  function ComponentPlan(t: Tables, names: seq<string>): seq<Action> {
    if names == [] then []
    else (if IsHelper(t, names[0]) then [] else [Action(Main(names[0]), File(Binary(names[0])))])
         + ComponentPlan(t, names[1..])
  }

  function SiblingPlan(h: Helper, names: seq<string>): seq<Action> {
    if names == [] then []
    else (if names[0] == h.name then []
          else [Action(Inside(h.bundle, names[0]), LinkTo(Main(names[0]), FolderOf(h.bundle)))])
         + SiblingPlan(h, names[1..])
  }

  function OwnNode(t: Tables, h: Helper): Node {
    if IsAlias(t, h.name) then LinkTo(Inside(STATION, AliasTarget(t, h.name)), FolderOf(h.bundle))
    else File(Binary(h.name))
  }

  function InfoOf(t: Tables, h: Helper): Content {
    Info(h.role, Entry(t, h.name), if Entry(t, h.name) == LAUNCHER then Some(h.name) else None, h.bundle + ".icns",
         h.role in {"station", "supervisor"})
  }

  /** Folders, binary or alias link, launcher, icon, Info.plist and the entry point. */
  function OwnPlan(t: Tables, h: Helper): seq<Action> {
    [Action(Folder(h.bundle), Dir), Action(Resources(h.bundle), Dir), Action(Inside(h.bundle, h.name), OwnNode(t, h))]
    + (if Entry(t, h.name) == LAUNCHER then [Action(Inside(h.bundle, LAUNCHER), File(Launcher))] else [])
    + [Action(IconFile(h.bundle), File(Icon(h.bundle))), Action(Plist(h.bundle), File(InfoOf(t, h))),
       Action(Main(h.name), LinkTo(Inside(h.bundle, Entry(t, h.name)), MAIN))]
  }

  function HelperPlan(t: Tables, h: Helper): seq<Action> {
    OwnPlan(t, h) + SiblingPlan(h, Siblings(t))
  }

  function HelperPlans(t: Tables, helpers: seq<Helper>): seq<Action> {
    if helpers == [] then [] else HelperPlan(t, helpers[0]) + HelperPlans(t, helpers[1..])
  }

  function Plan(t: Tables): seq<Action> {
    ComponentPlan(t, t.components) + HelperPlans(t, t.helpers)
  }

  /** Where a write to `path` ends: links are followed, one after the other. */
  function Target(tree: Tree, path: Path, steps: nat): Option<Path>
    decreases steps
  {
    if path !in tree || !tree[path].Link? then Some(path)
    else if steps == 0 || path == [] then None
    else Target(tree, Walk(path[..|path| - 1], tree[path].to), steps - 1)
  }

  predicate HasFolder(tree: Tree, path: Path) {
    path != [] && var dir := path[..|path| - 1]; dir == MAIN || (dir in tree && tree[dir].Dir?)
  }

  /** A folder or a link is made only where nothing is. A file is written over a file, or through
      links, which may make a new file in an existing folder; links in a circle stop the write, and
      a chain longer than the tree has nodes counts as one. */
  function Put(tree: Tree, path: Path, node: Node): Result<Tree, Path> {
    if !node.File? then
      if path in tree then Failure(path) else Success(tree[path := node])
    else
      var target := Target(tree, path, |tree|);
      if target.None? then Failure(path)
      else if target.value in tree then
        if tree[target.value].Dir? then Failure(path) else Success(tree[target.value := node])
      else if target.value == path || HasFolder(tree, target.value) then Success(tree[target.value := node])
      else Failure(path)
  }

  /** The actions in order, up to the first that fails. */
  function Perform(tree: Tree, actions: seq<Action>): Result<Tree, Path>
    decreases |actions|
  {
    if actions == [] then Success(tree)
    else
      var next := Put(tree, PathOf(actions[0].place), actions[0].node);
      if next.Failure? then next else Perform(next.value, actions[1..])
  }

  lemma {:induction false} PerformConcat(tree: Tree, a: seq<Action>, b: seq<Action>)
    ensures Perform(tree, a + b) ==
            match Perform(tree, a) case Success(mid) => Perform(mid, b) case Failure(p) => Failure(p)
    decreases |a|
  {
    hide Put, PathOf;
    if a == [] {
      assert a + b == b;
    } else {
      assert (a + b)[1..] == a[1..] + b;
      var next := Put(tree, PathOf(a[0].place), a[0].node);
      if next.Success? { PerformConcat(next.value, a[1..], b); }
    }
  }

  // ---------- the staging ----------

  class Stager {
    var tree: Tree

    constructor ()
      ensures tree == map[]
    {
      tree := map[];
    }

    method Create(place: Place, node: Node) returns (ok: bool)
      modifies this
      ensures var r := Perform(old(tree), [Action(place, node)]);
              ok == r.Success? && (ok ==> tree == r.value)
    {
      hide Target, PathOf, HasFolder;
      var path := PathOf(place);
      PerformOne(tree, Action(place, node));
      if !node.File? {
        if path in tree {
          return false;
        }
        tree := tree[path := node];
        return true;
      }
      var target := Target(tree, path, |tree|);
      if target.None? || (target.value in tree && tree[target.value].Dir?) {
        return false;
      }
      if target.value !in tree && target.value != path && !HasFolder(tree, target.value) {
        return false;
      }
      tree := tree[target.value := node];
      return true;
    }

    method StageSiblings(t: Tables, h: Helper) returns (ok: bool)
      modifies this
      ensures var r := Perform(old(tree), SiblingPlan(h, Siblings(t)));
              ok == r.Success? && (ok ==> tree == r.value)
    {
      hide Perform, PathOf;
      var names := Siblings(t);
      assert names[0..] == names;
      for i := 0 to |names|
        invariant Perform(old(tree), SiblingPlan(h, names)) == Perform(tree, SiblingPlan(h, names[i..]))
      {
        var sibling := names[i];
        assert names[i..][1..] == names[i + 1..];
        if sibling != h.name {
          PerformConcat(tree, [Action(Inside(h.bundle, sibling), LinkTo(Main(sibling), FolderOf(h.bundle)))],
                        SiblingPlan(h, names[i + 1..]));
          var made := Create(Inside(h.bundle, sibling), LinkTo(Main(sibling), FolderOf(h.bundle)));
          if !made { return false; }
        } else {
          assert [] + SiblingPlan(h, names[i + 1..]) == SiblingPlan(h, names[i + 1..]);
        }
      }
      PerformNothing(tree);
      return true;
    }

    method CreateAll(actions: seq<Action>) returns (ok: bool)
      modifies this
      ensures var r := Perform(old(tree), actions);
              ok == r.Success? && (ok ==> tree == r.value)
    {
      hide Perform;
      assert actions[0..] == actions;
      for i := 0 to |actions|
        invariant Perform(old(tree), actions) == Perform(tree, actions[i..])
      {
        assert actions[i..] == [actions[i]] + actions[i + 1..];
        PerformConcat(tree, [actions[i]], actions[i + 1..]);
        var made := Create(actions[i].place, actions[i].node);
        if !made { return false; }
      }
      PerformNothing(tree);
      return true;
    }

    method StageHelper(t: Tables, h: Helper) returns (ok: bool)
      modifies this
      ensures var r := Perform(old(tree), HelperPlan(t, h));
              ok == r.Success? && (ok ==> tree == r.value)
    {
      hide Perform;
      PerformConcat(tree, OwnPlan(t, h), SiblingPlan(h, Siblings(t)));
      ok := CreateAll(OwnPlan(t, h));
      if ok {
        ok := StageSiblings(t, h);
      }
    }

    /** The two loops of `stage_binaries`; on success the tree is the plan, carried out. */
    method StageBinaries(t: Tables) returns (ok: bool)
      modifies this
      ensures var r := Perform(old(tree), Plan(t));
              ok == r.Success? && (ok ==> tree == r.value)
    {
      hide Perform, HelperPlan;
      ghost var start := tree;
      PerformConcat(start, ComponentPlan(t, t.components), HelperPlans(t, t.helpers));
      assert t.components[0..] == t.components && t.helpers[0..] == t.helpers;
      for i := 0 to |t.components|
        invariant Perform(start, ComponentPlan(t, t.components)) == Perform(tree, ComponentPlan(t, t.components[i..]))
      {
        var name := t.components[i];
        assert t.components[i..][1..] == t.components[i + 1..];
        var rest := ComponentPlan(t, t.components[i + 1..]);
        if !IsHelper(t, name) {
          PerformConcat(tree, [Action(Main(name), File(Binary(name)))], rest);
          var made := Create(Main(name), File(Binary(name)));
          if !made { return false; }
        } else {
          assert [] + rest == rest;
        }
      }
      PerformNothing(tree);
      ghost var mid := tree;
      for i := 0 to |t.helpers|
        invariant Perform(mid, HelperPlans(t, t.helpers)) == Perform(tree, HelperPlans(t, t.helpers[i..]))
      {
        assert t.helpers[i..][1..] == t.helpers[i + 1..];
        PerformConcat(tree, HelperPlan(t, t.helpers[i]), HelperPlans(t, t.helpers[i + 1..]));
        var made := StageHelper(t, t.helpers[i]);
        if !made { return false; }
      }
      PerformNothing(tree);
      return true;
    }
  }

  lemma PerformNothing(tree: Tree)
    ensures Perform(tree, []) == Success(tree)
  {}

  lemma PerformOne(tree: Tree, action: Action)
    ensures Perform(tree, [action]) == Put(tree, PathOf(action.place), action.node)
  {
    hide Put, PathOf;
    assert [action][1..] == [];
  }

  // ---------- no path is created twice ----------

  predicate Distinct(names: seq<string>) {
    forall i, j | 0 <= i < j < |names| :: names[i] != names[j]
  }

  /** One component of a path. */
  predicate Segment(name: string) {
    name != "" && name != "." && name != ".." && '/' !in name
  }

  predicate Plain(name: string) { name != LAUNCHER && Segment(name) }

  /** A binary in the Station bundle that is no alias itself. */
  predicate HostedInStation(t: Tables, target: string) {
    !IsAlias(t, target) && exists i | 0 <= i < |t.helpers| ::
      t.helpers[i].bundle == STATION && t.helpers[i].name == target
  }

  /** Names are single path components and distinct, helpers and their bundles are, and every alias is a helper
      whose target the Station bundle holds. */
  predicate Good(t: Tables) {
    && Distinct(Siblings(t))
    && (forall i | 0 <= i < |Siblings(t)| :: Plain(Siblings(t)[i]))
    && (forall i | 0 <= i < |t.helpers| :: Plain(t.helpers[i].name) && Segment(t.helpers[i].bundle))
    && (forall i, j | 0 <= i < j < |t.helpers| ::
        t.helpers[i].name != t.helpers[j].name && t.helpers[i].bundle != t.helpers[j].bundle)
    && (forall i | 0 <= i < |t.aliases| :: IsHelper(t, t.aliases[i].0) && HostedInStation(t, t.aliases[i].1))
  }

  ghost predicate Different(actions: seq<Action>) {
    forall i, j | 0 <= i < j < |actions| :: actions[i].place != actions[j].place
  }

  ghost predicate Apart(a: seq<Action>, b: seq<Action>) {
    forall i, j | 0 <= i < |a| && 0 <= j < |b| :: a[i].place != b[j].place
  }

  lemma DifferentConcat(a: seq<Action>, b: seq<Action>)
    requires Different(a) && Different(b) && Apart(a, b)
    ensures Different(a + b)
  {}

  lemma {:induction false} ComponentPlaces(t: Tables, names: seq<string>)
    requires Distinct(names)
    ensures var plan := ComponentPlan(t, names);
            && Different(plan)
            && forall i | 0 <= i < |plan| ::
              plan[i].place.Main? && plan[i].place.name in names && !IsHelper(t, plan[i].place.name)
  {
    if names != [] {
      ComponentPlaces(t, names[1..]);
      assert forall x | x in names[1..] :: x != names[0];
    }
  }

  lemma {:induction false} SiblingPlaces(h: Helper, names: seq<string>)
    requires Distinct(names)
    ensures var plan := SiblingPlan(h, names);
            && Different(plan)
            && forall i | 0 <= i < |plan| ::
                 plan[i].place.Inside? && plan[i].place.bundle == h.bundle && plan[i].place.name in names &&
                   plan[i].place.name != h.name
  {
    if names != [] {
      SiblingPlaces(h, names[1..]);
      assert forall x | x in names[1..] :: x != names[0];
    }
  }

  /** The place belongs to the helper: its entry point, or something in its bundle. */
  predicate Belongs(p: Place, h: Helper) {
    if p.Main? then p.name == h.name else p.bundle == h.bundle
  }

  lemma HelperPlaces(t: Tables, h: Helper)
    requires Good(t) && Plain(h.name)
    ensures Different(HelperPlan(t, h)) && forall i | 0 <= i < |HelperPlan(t, h)| ::
            Belongs(HelperPlan(t, h)[i].place, h)
  {
    var own, rest := OwnPlan(t, h), SiblingPlan(h, Siblings(t));
    SiblingPlaces(h, Siblings(t));
    OwnPlaces(t, h);
    forall i, j | 0 <= i < |own| && 0 <= j < |rest| ensures own[i].place != rest[j].place {
      var k :| 0 <= k < |Siblings(t)| && Siblings(t)[k] == rest[j].place.name;
      assert Plain(Siblings(t)[k]);
    }
    DifferentConcat(own, rest);
  }

  lemma OwnPlaces(t: Tables, h: Helper)
    requires Plain(h.name)
    ensures Different(OwnPlan(t, h))
    ensures forall i | 0 <= i < |OwnPlan(t, h)| ::
              Belongs(OwnPlan(t, h)[i].place, h) &&
                (OwnPlan(t, h)[i].place.Inside? ==> OwnPlan(t, h)[i].place.name in {h.name, LAUNCHER})
  {
    hide LinkTo, OwnNode, IsAlias;
  }

  lemma {:induction false} HelpersPlaces(t: Tables, k: nat)
    requires Good(t) && k <= |t.helpers|
    ensures var plan := HelperPlans(t, t.helpers[k..]);
            && Different(plan)
            && forall i | 0 <= i < |plan| :: exists j | k <= j < |t.helpers| :: Belongs(plan[i].place, t.helpers[j])
    decreases |t.helpers| - k
  {
    hide HelperPlan;
    if k < |t.helpers| {
      var h := t.helpers[k];
      var first, rest := HelperPlan(t, h), HelperPlans(t, t.helpers[k + 1..]);
      HelperPlaces(t, h);
      HelpersPlaces(t, k + 1);
      assert t.helpers[k..][1..] == t.helpers[k + 1..];
      DifferentConcat(first, rest);
    }
  }

  lemma PlanPlaces(t: Tables)
    requires Good(t)
    ensures Different(Plan(t))
  {
    hide HelperPlans, ComponentPlan;
    var a, b := ComponentPlan(t, t.components), HelperPlans(t, t.helpers);
    forall i, j | 0 <= i < j < |t.components| ensures t.components[i] != t.components[j] {
      assert Siblings(t)[i] != Siblings(t)[j];
    }
    ComponentPlaces(t, t.components);
    HelpersPlaces(t, 0);
    assert t.helpers[0..] == t.helpers;
    DifferentConcat(a, b);
  }

  lemma PutFresh(tree: Tree, path: Path, node: Node)
    requires path !in tree
    ensures Put(tree, path, node) == Success(tree[path := node])
  {}

  lemma {:induction false} PerformDifferent(tree: Tree, actions: seq<Action>)
    requires Different(actions) && forall i | 0 <= i < |actions| :: PathOf(actions[i].place) !in tree
    ensures var r := Perform(tree, actions);
            && r.Success?
            && (forall i | 0 <= i < |actions| ::
                PathOf(actions[i].place) in r.value && r.value[PathOf(actions[i].place)] == actions[i].node)
            && (forall p | p in tree :: p in r.value && r.value[p] == tree[p])
            && |r.value| == |tree| + |actions|
    decreases |actions|
  {
    hide PathOf, Put;
    if actions != [] {
      PutFresh(tree, PathOf(actions[0].place), actions[0].node);
      var next := tree[PathOf(actions[0].place) := actions[0].node];
      forall i | 0 <= i < |actions[1..]| ensures PathOf(actions[1..][i].place) !in next {
        assert actions[1..][i] == actions[i + 1];
        if PathOf(actions[i + 1].place) == PathOf(actions[0].place) {
          PathsDiffer(actions[i + 1].place, actions[0].place);
        }
      }
      PerformDifferent(next, actions[1..]);
      var r := Perform(next, actions[1..]).value;
      forall i | 0 <= i < |actions|
        ensures PathOf(actions[i].place) in r && r[PathOf(actions[i].place)] == actions[i].node
      {
        if i > 0 { assert actions[i] == actions[1..][i - 1]; }
      }
    }
  }

  /** For every good table the staging succeeds and each planned path exists with its node. */
  lemma StagingSucceeds(t: Tables)
    requires Good(t)
    ensures var r := Perform(map[], Plan(t));
            && r.Success? && |r.value| == |Plan(t)|
            && forall i | 0 <= i < |Plan(t)| ::
              PathOf(Plan(t)[i].place) in r.value && r.value[PathOf(Plan(t)[i].place)] == Plan(t)[i].node
  {
    PlanPlaces(t);
    PerformDifferent(map[], Plan(t));
  }

  // ---------- paths as texts ----------

  function PathText(path: Path): string {
    if path == [] then "" else "/" + path[0] + PathText(path[1..])
  }

  ghost predicate Segments(path: Path) {
    forall i | 0 <= i < |path| :: Segment(path[i])
  }

  /** Different paths of single components are different texts, so no two places of a good table are
      one place in the file system. */
  lemma {:induction false} PathTextDetermines(p: Path, q: Path)
    requires Segments(p) && Segments(q) && PathText(p) == PathText(q)
    ensures p == q
  {
    if p != [] && q != [] {
      var a, b := p[0], q[0];
      assert Segment(a) && Segment(b);
      var t, u := PathText(p[1..]), PathText(q[1..]);
      assert PathText(p)[1..] == a + t && PathText(q)[1..] == b + u;
      FirstSegment(a, t, b, u);
      PathTextDetermines(p[1..], q[1..]);
      assert p == [p[0]] + p[1..] && q == [q[0]] + q[1..];
    }
  }

  lemma FirstSegment(a: string, t: string, b: string, u: string)
    requires a + t == b + u && '/' !in a && '/' !in b && (t == "" || t[0] == '/') && (u == "" || u[0] == '/')
    ensures a == b && t == u
  {
    var x := a + t;
    assert x[..|a|] == a && x[..|b|] == b && x[|a|..] == t && x[|b|..] == u;
    assert forall k | 0 <= k < |a| :: x[k] == a[k];
    assert forall k | 0 <= k < |b| :: x[k] == b[k];
    assert |a| < |x| ==> x[|a|] == t[0];
    assert |b| < |x| ==> x[|b|] == u[0];
  }

  ghost predicate Placed(p: Place) {
    if p.Main? then Segment(p.name) else Segment(p.bundle) && (p.Inside? ==> Segment(p.name))
  }

  ghost predicate AllPlaced(actions: seq<Action>) {
    forall i | 0 <= i < |actions| :: Placed(actions[i].place)
  }

  lemma {:induction false} ComponentsPlaced(t: Tables, names: seq<string>)
    requires forall n | n in names :: Segment(n)
    ensures AllPlaced(ComponentPlan(t, names))
  {
    hide Segment;
    if names != [] { ComponentsPlaced(t, names[1..]); }
  }

  lemma {:induction false} SiblingsPlaced(h: Helper, names: seq<string>)
    requires Segment(h.bundle) && forall n | n in names :: Segment(n)
    ensures AllPlaced(SiblingPlan(h, names))
  {
    hide Segment, LinkTo;
    if names != [] { SiblingsPlaced(h, names[1..]); }
  }

  lemma OwnPlaced(t: Tables, h: Helper)
    requires Segment(h.bundle) && Segment(h.name)
    ensures AllPlaced(OwnPlan(t, h))
  {
    hide LinkTo, OwnNode, IsAlias;
    assert '/' !in LAUNCHER;
  }

  lemma {:induction false} HelpersPlaced(t: Tables, k: nat)
    requires Good(t) && k <= |t.helpers|
    ensures AllPlaced(HelperPlans(t, t.helpers[k..]))
    decreases |t.helpers| - k
  {
    hide Segment, OwnPlan, SiblingPlan, Plain;
    if k < |t.helpers| {
      var h := t.helpers[k];
      GoodSegments(t);
      OwnPlaced(t, h);
      SiblingsPlaced(h, Siblings(t));
      HelpersPlaced(t, k + 1);
      assert t.helpers[k..][1..] == t.helpers[k + 1..];
    }
  }

  lemma GoodSegments(t: Tables)
    requires Good(t)
    ensures forall n | n in Siblings(t) :: Segment(n)
    ensures forall i | 0 <= i < |t.helpers| :: Segment(t.helpers[i].name) && Segment(t.helpers[i].bundle)
  {
    hide Segment;
    forall n | n in Siblings(t) ensures Segment(n) {
      var i :| 0 <= i < |Siblings(t)| && Siblings(t)[i] == n;
      assert Plain(Siblings(t)[i]);
    }
  }

  lemma PlaceSegments(p: Place)
    requires Placed(p)
    ensures Segments(PathOf(p))
  {
    assert Segment("Contents") && Segment("MacOS") && Segment("Helpers") && Segment("Resources") &&
           Segment("Info.plist");
    if !p.Main? {
      var app, icns := p.bundle + ".app", p.bundle + ".icns";
      assert Segment(app) by { assert |app| > 2; }
      assert Segment(icns) by { assert |icns| > 2; }
    }
  }

  /** Every place a good table plans is such a path. */
  lemma PlannedSegments(t: Tables, i: nat)
    requires Good(t) && i < |Plan(t)|
    ensures Segments(PathOf(Plan(t)[i].place))
  {
    hide Segment, ComponentPlan, HelperPlans, PathOf, Good;
    GoodSegments(t);
    assert forall n | n in t.components :: n in Siblings(t);
    ComponentsPlaced(t, t.components);
    HelpersPlaced(t, 0);
    assert t.helpers[0..] == t.helpers;
    PlaceSegments(Plan(t)[i].place);
  }

  // ---------- where the links lead ----------

  ghost function Resolve(tree: Tree, path: Path, steps: nat): Option<Node>
    decreases steps
  {
    if path !in tree then None
    else match tree[path]
      case Link(to) =>
        if steps == 0 || path == [] then None else Resolve(tree, Walk(path[..|path| - 1], to), steps - 1)
      case node => Some(node)
  }

  ghost predicate Holds(tree: Tree, p: Place, node: Node) {
    PathOf(p) in tree && tree[PathOf(p)] == node
  }

  lemma PlainPath(p: Place)
    requires p.Main? || p.Inside? ==> p.name != ".."
    ensures ".." !in PathOf(p)
  {
    if !p.Main? { assert |p.bundle + ".app"| > 2 && |p.bundle + ".icns"| > 2; }
  }

  /** A link at a place leads where it was made to lead. */
  lemma FollowLink(tree: Tree, p: Place, target: Place, dir: Path, steps: nat)
    requires (p.Main? && dir == MAIN) || (p.Inside? && dir == FolderOf(p.bundle))
    requires target.Main? || target.Inside? ==> target.name != ".."
    requires Holds(tree, p, LinkTo(target, dir))
    ensures Resolve(tree, PathOf(p), steps + 1) == Resolve(tree, PathOf(target), steps)
  {
    hide PathOf, Walk, RelPath;
    assert PathOf(p)[..|PathOf(p)| - 1] == dir by { ParentOf(p, dir); }
    PlainPath(target);
    RelPathLeads([], PathOf(target), dir);
    assert [] + dir == dir && [] + PathOf(target) == PathOf(target);
    NonEmptyPath(p);
  }

  lemma ParentOf(p: Place, dir: Path)
    requires (p.Main? && dir == MAIN) || (p.Inside? && dir == FolderOf(p.bundle))
    ensures PathOf(p) != [] && PathOf(p)[..|PathOf(p)| - 1] == dir
  {}

  lemma NonEmptyPath(p: Place)
    ensures PathOf(p) != []
  {}

  ghost predicate Planned(t: Tables, p: Place, node: Node) {
    Action(p, node) in Plan(t)
  }

  lemma PlannedHolds(t: Tables, tree: Tree, p: Place, node: Node)
    requires Good(t) && Perform(map[], Plan(t)) == Success(tree) && Planned(t, p, node)
    ensures Holds(tree, p, node)
  {
    StagingSucceeds(t);
    var i :| 0 <= i < |Plan(t)| && Plan(t)[i] == Action(p, node);
  }

  lemma {:induction false} HelperPlanned(t: Tables, k: nat, i: nat, a: Action)
    requires i <= k < |t.helpers| && a in HelperPlan(t, t.helpers[k])
    ensures a in HelperPlans(t, t.helpers[i..])
    decreases k - i
  {
    hide HelperPlan;
    assert t.helpers[i..][1..] == t.helpers[i + 1..];
    if i < k { HelperPlanned(t, k, i + 1, a); }
  }

  lemma HelperInPlan(t: Tables, k: nat, a: Action)
    requires k < |t.helpers| && a in HelperPlan(t, t.helpers[k])
    ensures a in Plan(t)
  {
    hide HelperPlan, HelperPlans;
    HelperPlanned(t, k, 0, a);
    assert t.helpers[0..] == t.helpers;
  }

  lemma {:induction false} ComponentPlanned(t: Tables, names: seq<string>, name: string)
    requires name in names && !IsHelper(t, name)
    ensures Action(Main(name), File(Binary(name))) in ComponentPlan(t, names)
  {
    if names[0] != name { ComponentPlanned(t, names[1..], name); }
  }

  lemma {:induction false} SiblingPlanned(h: Helper, names: seq<string>, name: string)
    requires name in names && name != h.name
    ensures Action(Inside(h.bundle, name), LinkTo(Main(name), FolderOf(h.bundle))) in SiblingPlan(h, names)
  {
    if names[0] != name { SiblingPlanned(h, names[1..], name); }
  }

  lemma {:induction false} TargetHosted(t: Tables, name: string, k: nat)
    requires Good(t) && k <= |t.aliases| && exists i | k <= i < |t.aliases| :: t.aliases[i].0 == name
    ensures HostedInStation(t, AliasTarget(t, name, k))
    decreases |t.aliases| - k
  {
    if t.aliases[k].0 != name { TargetHosted(t, name, k + 1); }
  }

  /** What an entry point is meant to be. */
  function EntryContent(t: Tables, name: string): Content {
    if IsAlias(t, name) then Launcher else Binary(name)
  }

  /** A helper's own executable: its binary, or for an alias the Station binary it reuses. */
  lemma OwnResolves(t: Tables, tree: Tree, k: nat)
    requires Good(t) && Perform(map[], Plan(t)) == Success(tree) && k < |t.helpers|
    ensures var h := t.helpers[k];
            Resolve(tree, PathOf(Inside(h.bundle, h.name)), 1) == Some(File(Binary(AliasTarget(t, h.name))))
    ensures !IsAlias(t, t.helpers[k].name) ==> AliasTarget(t, t.helpers[k].name) == t.helpers[k].name
  {
    hide PathOf, Plan, SiblingPlan, Perform, LinkTo;
    var h := t.helpers[k];
    HelperInPlan(t, k, OwnPlan(t, h)[2]);
    PlannedHolds(t, tree, Inside(h.bundle, h.name), OwnNode(t, h));
    if IsAlias(t, h.name) {
      TargetHosted(t, h.name, 0);
      var target := AliasTarget(t, h.name);
      var s :| 0 <= s < |t.helpers| && t.helpers[s].bundle == STATION && t.helpers[s].name == target;
      HelperInPlan(t, s, OwnPlan(t, t.helpers[s])[2]);
      PlannedHolds(t, tree, Inside(STATION, target), File(Binary(target)));
      assert Plain(t.helpers[s].name);
      FollowLink(tree, Inside(h.bundle, h.name), Inside(STATION, target), FolderOf(h.bundle), 0);
    } else {
      NoTarget(t, h.name, 0);
    }
  }

  lemma {:induction false} NoTarget(t: Tables, name: string, k: nat)
    requires k <= |t.aliases| && !IsAlias(t, name)
    ensures AliasTarget(t, name, k) == name
    decreases |t.aliases| - k
  {
    if k < |t.aliases| { NoTarget(t, name, k + 1); }
  }

  /** Every entry point in the main folder leads to its binary, or to the launcher for an alias. */
  lemma EntryResolves(t: Tables, tree: Tree, name: string)
    requires Good(t) && Perform(map[], Plan(t)) == Success(tree) && (name in t.components || IsHelper(t, name))
    ensures Resolve(tree, PathOf(Main(name)), 1) == Some(File(EntryContent(t, name)))
  {
    hide PathOf, SiblingPlan, Perform, LinkTo, HelperPlans, ComponentPlan;
    if IsHelper(t, name) {
      var k :| 0 <= k < |t.helpers| && t.helpers[k].name == name;
      var h := t.helpers[k];
      var own := OwnPlan(t, h);
      assert Plain(h.name);
      HelperInPlan(t, k, own[|own| - 1]);
      PlannedHolds(t, tree, Main(name), LinkTo(Inside(h.bundle, Entry(t, name)), MAIN));
      FollowLink(tree, Main(name), Inside(h.bundle, Entry(t, name)), MAIN, 0);
      if IsAlias(t, name) {
        HelperInPlan(t, k, own[3]);
        PlannedHolds(t, tree, Inside(h.bundle, LAUNCHER), File(Launcher));
      } else {
        HelperInPlan(t, k, own[2]);
        PlannedHolds(t, tree, Inside(h.bundle, name), File(Binary(name)));
      }
    } else {
      NotAliased(t, name);
      ComponentPlanned(t, t.components, name);
      PlannedHolds(t, tree, Main(name), File(Binary(name)));
    }
  }

  lemma NotAliased(t: Tables, name: string)
    requires Good(t) && !IsHelper(t, name)
    ensures !IsAlias(t, name)
  {}

  /** Inside every helper each sibling name leads, through the main folder, to that name's entry. */
  lemma SiblingResolves(t: Tables, tree: Tree, k: nat, name: string)
    requires Good(t) && Perform(map[], Plan(t)) == Success(tree)
    requires k < |t.helpers| && name in Siblings(t) && name != t.helpers[k].name
    ensures Resolve(tree, PathOf(Inside(t.helpers[k].bundle, name)), 2) == Some(File(EntryContent(t, name)))
  {
    hide PathOf, SiblingPlan, Perform, LinkTo, OwnPlan, Plan;
    var h := t.helpers[k];
    SiblingPlanned(h, Siblings(t), name);
    HelperInPlan(t, k, Action(Inside(h.bundle, name), LinkTo(Main(name), FolderOf(h.bundle))));
    PlannedHolds(t, tree, Inside(h.bundle, name), LinkTo(Main(name), FolderOf(h.bundle)));
    var i :| 0 <= i < |Siblings(t)| && Siblings(t)[i] == name;
    assert Plain(Siblings(t)[i]);
    FollowLink(tree, Inside(h.bundle, name), Main(name), FolderOf(h.bundle), 1);
    if i >= |t.components| { assert IsHelper(t, t.aliases[i - |t.components|].0); }
    EntryResolves(t, tree, name);
  }

  /** The tables in the script. */
  function Product(): Tables {
    Tables(["zork-gui", "zork", "zork-station", "zork-agent", "zork-gh"],
           [Helper("zork", "ZorkSupervisor", "supervisor"), Helper("zork-station", STATION, "station"),
            Helper("zork-service-watch", "ZorkServiceWatch", "service-watch")],
           [("zork-service-watch", "zork-station")])
  }

  lemma ProductIsGood()
    ensures Good(Product())
  {
    hide Siblings, Plain, Segment;
    var t := Product();
    ProductNames();
    ProductBundles();
    assert t.helpers[2].name == t.aliases[0].0 && t.helpers[1].name == t.aliases[0].1;
  }

  lemma ProductNames()
    ensures Distinct(Siblings(Product())) && forall i | 0 <= i < |Siblings(Product())| :: Plain(Siblings(Product())[i])
    ensures Plain("zork") && Plain("zork-station") && Plain("zork-service-watch")
  {
    hide Segment;
    var names := Siblings(Product());
    assert names == ["zork-gui", "zork", "zork-station", "zork-agent", "zork-gh", "zork-service-watch"];
    ProductSegments();
    assert |names[0]| == 8 && |names[1]| == 4 && |names[2]| == 12 && |names[3]| == 10 && |names[4]| == 7 &&
           |names[5]| == 18;
    assert |LAUNCHER| == 18 && LAUNCHER[0] == 'Z' && names[5][0] == 'z';
  }

  lemma ProductSegments()
    ensures Segment("zork-gui") && Segment("zork") && Segment("zork-station")
    ensures Segment("zork-agent") && Segment("zork-gh") && Segment("zork-service-watch")
  {}

  lemma ProductBundles()
    ensures Segment("ZorkSupervisor") && Segment(STATION) && Segment("ZorkServiceWatch")
    ensures |STATION| == 11 && |"ZorkSupervisor"| == 14 && |"ZorkServiceWatch"| == 16
  {}
}

/**
  The part of the Visual Studio automation model (EnvDTE, EnvDTE80.Solution2,
  EnvDTE80.SolutionFolder, VSLangProj.References) that the command uses,
  as an in-memory host.

  A COM `Project` object is a `Handle`. The host keeps a table of the live
  nodes; removing a project from the solution takes its handle out of the
  table, so every later access through that handle fails, as a call on a
  disconnected COM object does. New nodes always get a handle never used before.
*/
module EnvDte {
  import opened Wrappers

  type Handle = nat

  /** One entry of a VSLangProj `References` collection (null strings are
      modelled as ""). `sourceProject` is `Reference.SourceProject`: the
      project node a project reference points at, None for any other reference. */
  datatype Reference = Reference(
    identity: string,
    name: string,
    strongName: bool,
    version: string,
    culture: string,
    publicKeyToken: string,
    path: string,
    sourceProject: Option<Handle>)

  /** What `Project.Object` is: a solution folder, a VSLangProj project with
      its references, null (NoObject), or anything else. */
  datatype ProjectObject =
    | SolutionFolder
    | VSProject(references: seq<Reference>)
    | NoObject
    | OtherObject

  /** The readable state of one node: `Project.Name`, `Project.FullName` (empty for folders) and `Project.Object`. */
  datatype ProjectData = ProjectData(name: string, fullName: string, obj: ProjectObject)

  /** What loading a project file yields: a VSLangProj project with its
      references, or a project of some other kind (`references` is None).
      Its FullName is the path it was loaded from. */
  datatype ProjectFile = ProjectFile(name: string, references: Option<seq<Reference>>) {
    function Object(): (o: ProjectObject)
      ensures !o.SolutionFolder?
    {
      if references.Some? then VSProject(references.value) else OtherObject
    }
  }

  /** The host calls whose failure the environment can arrange. */
  datatype Call = RemoveCall | AddSolutionFolderCall | AddFromFileCall | FindCall | AddProjectCall

  /** The exceptions the command can meet: a failing host (COM) call, the
      command's own "Reference already exists." and Dictionary.Add's duplicate key. */
  datatype Error = HostFailure | ReferenceAlreadyExists | DuplicateKey

  /** What the host does not let the command change: the project files on
      disk that AddFromFile can load, and the host calls that throw. */
  datatype Environment = Environment(files: map<string, ProjectFile>, refuses: set<Call>)

  /** A snapshot of the host's mutable state.
      open: `DTE.Solution` is not null; projects: `Solution.Projects`, the
      top-level nodes in order; items: the children of each solution folder;
      live: the nodes that still exist; next: the next unused handle. */
  datatype Solution = Solution(
    open: bool,
    projects: seq<Handle>,
    items: map<Handle, seq<Handle>>,
    live: map<Handle, ProjectData>,
    next: Handle)

  /** Every handle the solution shows is live, exactly the live folders have
      children lists, and every used handle is below `next`. */
  ghost predicate Wf(s: Solution) {
    && (forall i :: 0 <= i < |s.projects| ==> s.projects[i] in s.live)
    && (forall f :: f in s.items <==> f in s.live && s.live[f].obj.SolutionFolder?)
    && (forall f, i :: f in s.items && 0 <= i < |s.items[f]| ==> s.items[f][i] in s.live)
    && (forall h :: h in s.live ==> h < s.next)
  }

  /** Reading a node through its handle; a removed node's handle throws. */
  function ProjectAt(s: Solution, h: Handle): (r: Result<ProjectData, Error>)
    ensures r.Success? <==> h in s.live
    ensures r.Success? ==> r.value == s.live[h]
    ensures r.Failure? ==> r.error == HostFailure
  {
    if h in s.live then Success(s.live[h]) else Failure(HostFailure)
  }

  /** `hs` with every occurrence of `h` taken out. */
  function Without(hs: seq<Handle>, h: Handle): (r: seq<Handle>)
    ensures forall x :: x in r <==> x in hs && x != h
  {
    if hs == [] then [] else (if hs[0] == h then [] else [hs[0]]) + Without(hs[1..], h)
  }

  /** The first reference whose Identity is `key` (`References.Find`). */
  function FirstWithIdentity(refs: seq<Reference>, key: string): (r: Option<Reference>)
    ensures r.None? <==> forall i :: 0 <= i < |refs| ==> refs[i].identity != key
    ensures r.Some? ==> exists i :: 0 <= i < |refs| && refs[i] == r.value && refs[i].identity == key
                                  && forall j :: 0 <= j < i ==> refs[j].identity != key
  {
    if refs == [] then None
    else if refs[0].identity == key then Some(refs[0])
    else FirstWithIdentity(refs[1..], key)
  }

  /** The reference `References.AddProject(h)` creates for node `h` holding
      `p`: a project reference named after the project, pointing at its file. */
  function ProjectReference(h: Handle, p: ProjectData): (r: Reference)
    ensures r.identity == p.name && !r.strongName && r.sourceProject == Some(h)
  {
    Reference(p.name, p.name, false, "", "", "", p.fullName, Some(h))
  }

  /** `refs` without the project references that point at node `h`. */
  function WithoutSource(refs: seq<Reference>, h: Handle): (r: seq<Reference>)
    ensures forall x :: x in r <==> x in refs && x.sourceProject != Some(h)
  {
    if refs == [] then []
    else (if refs[0].sourceProject == Some(h) then [] else [refs[0]]) + WithoutSource(refs[1..], h)
  }

  /** A node after node `h` left the solution: its project references to `h` are gone. */
  function Unreferenced(d: ProjectData, h: Handle): (e: ProjectData)
    ensures e.name == d.name && e.fullName == d.fullName && e.obj.VSProject? == d.obj.VSProject?
    ensures !d.obj.VSProject? ==> e == d
    ensures d.obj.VSProject? ==> forall r :: r in e.obj.references <==> r in d.obj.references && r.sourceProject != Some(h)
  {
    if d.obj.VSProject? then d.(obj := VSProject(WithoutSource(d.obj.references, h))) else d
  }

  /** The table of live nodes once node `h` has left the solution. */
  function DropNode(live: map<Handle, ProjectData>, h: Handle): (m: map<Handle, ProjectData>)
    ensures m.Keys == live.Keys - {h}
    ensures forall x :: x in m ==> m[x] == Unreferenced(live[x], h)
  {
    map x | x in live && x != h :: Unreferenced(live[x], h)
  }

  /** `Solution.Remove(h)`: the node leaves the solution, every folder and the
      table of live nodes, and the host drops every project reference to it. */
  function RemoveSpec(env: Environment, s: Solution, h: Handle): (r: (Solution, Outcome<Error>)) {
    if RemoveCall in env.refuses || h !in s.live then (s, Fail(HostFailure))
    else
      (s.(projects := Without(s.projects, h),
          items := map f | f in s.items && f != h :: Without(s.items[f], h),
          live := DropNode(s.live, h)),
       Pass)
  }

  /** `Solution2.AddSolutionFolder(name)`: a new, empty, top-level folder at the end of the solution. */
  function AddSolutionFolderSpec(env: Environment, s: Solution, name: string): (r: (Solution, Result<Handle, Error>)) {
    if AddSolutionFolderCall in env.refuses then (s, Failure(HostFailure))
    else
      var f := s.next;
      (s.(projects := s.projects + [f],
          items := s.items[f := []],
          live := s.live[f := ProjectData(name, "", SolutionFolder)],
          next := f + 1),
       Success(f))
  }

  /** `SolutionFolder.AddFromFile(path)`: a new project node, loaded from `path`, as the last child of `folder`. */
  function AddFromFileSpec(env: Environment, s: Solution, folder: Handle, path: string): (r: (Solution, Result<Handle, Error>)) {
    if AddFromFileCall in env.refuses || folder !in s.items || path !in env.files then (s, Failure(HostFailure))
    else
      var h := s.next;
      var file := env.files[path];
      (s.(items := s.items[folder := s.items[folder] + [h]],
          live := s.live[h := ProjectData(file.name, path, file.Object())],
          next := h + 1),
       Success(h))
  }

  /** `References.Find(key)` on the references of VSLangProj project `h`. */
  function FindSpec(env: Environment, s: Solution, h: Handle, key: string): (r: Result<Option<Reference>, Error>) {
    if FindCall in env.refuses || h !in s.live || !s.live[h].obj.VSProject? then Failure(HostFailure)
    else Success(FirstWithIdentity(s.live[h].obj.references, key))
  }

  /** `References.AddProject(p)` on VSLangProj project `holder`: appends one reference to `p`. */
  function AddProjectSpec(env: Environment, s: Solution, holder: Handle, p: Handle): (r: (Solution, Outcome<Error>)) {
    if AddProjectCall in env.refuses || holder !in s.live || p !in s.live || holder == p
       || !s.live[holder].obj.VSProject?
    then (s, Fail(HostFailure))
    else
      var hd := s.live[holder];
      (s.(live := s.live[holder := hd.(obj := VSProject(hd.obj.references + [ProjectReference(p, s.live[p])]))]),
       Pass)
  }

  /** Every node that exists in both states is the same in both. */
  ghost predicate KeepsNodes(s: Solution, t: Solution) {
    forall h :: h in s.live && h in t.live ==> t.live[h] == s.live[h]
  }

  /** `e` is node `d` with at most some of its references gone: the same
      Name, FullName and kind, and no reference that `d` did not have. */
  ghost predicate NoNewReference(d: ProjectData, e: ProjectData) {
    && e.name == d.name && e.fullName == d.fullName
    && e.obj.VSProject? == d.obj.VSProject?
    && (!d.obj.VSProject? ==> e.obj == d.obj)
    && (d.obj.VSProject? ==> forall r :: r in e.obj.references ==> r in d.obj.references)
  }

  /** No node that exists in both states gained a reference. */
  ghost predicate AddsNoReference(s: Solution, t: Solution) {
    forall h :: h in s.live && h in t.live ==> NoNewReference(s.live[h], t.live[h])
  }

  lemma RemoveSpecWf(env: Environment, s: Solution, h: Handle)
    requires Wf(s)
    ensures Wf(RemoveSpec(env, s, h).0)
    ensures AddsNoReference(s, RemoveSpec(env, s, h).0)
    ensures RemoveSpec(env, s, h).0.live.Keys <= s.live.Keys
    ensures RemoveSpec(env, s, h).0.next == s.next
  {
    var t := RemoveSpec(env, s, h).0;
    if t != s {
      forall f, i | f in t.items && 0 <= i < |t.items[f]| ensures t.items[f][i] in t.live {
        assert t.items[f][i] in Without(s.items[f], h);
      }
      forall i | 0 <= i < |t.projects| ensures t.projects[i] in t.live {
        assert t.projects[i] in Without(s.projects, h);
      }
    }
  }

  lemma AddSolutionFolderSpecWf(env: Environment, s: Solution, name: string)
    requires Wf(s)
    ensures Wf(AddSolutionFolderSpec(env, s, name).0)
    ensures KeepsNodes(s, AddSolutionFolderSpec(env, s, name).0)
    ensures var t := AddSolutionFolderSpec(env, s, name).0;
      s.live.Keys <= t.live.Keys && s.next <= t.next
      && forall x :: x in t.live && x !in s.live ==> s.next <= x
  {
    var t := AddSolutionFolderSpec(env, s, name).0;
    if t != s {
      assert s.next !in s.live;
      forall f, i | f in t.items && 0 <= i < |t.items[f]| ensures t.items[f][i] in t.live {
        assert f != s.next;
      }
    }
  }

  lemma AddFromFileSpecWf(env: Environment, s: Solution, folder: Handle, path: string)
    requires Wf(s)
    ensures Wf(AddFromFileSpec(env, s, folder, path).0)
    ensures KeepsNodes(s, AddFromFileSpec(env, s, folder, path).0)
    ensures var t := AddFromFileSpec(env, s, folder, path).0;
      s.live.Keys <= t.live.Keys && s.next <= t.next
      && forall x :: x in t.live && x !in s.live ==> s.next <= x
  {
    var t := AddFromFileSpec(env, s, folder, path).0;
    if t != s {
      assert s.next !in s.live;
      forall f, i | f in t.items && 0 <= i < |t.items[f]| ensures t.items[f][i] in t.live {
        if f == folder && i == |s.items[folder]| {
          assert t.items[f][i] == s.next;
        } else if f == folder {
          assert t.items[f][i] == s.items[folder][i];
        }
      }
    }
  }

  lemma AddProjectSpecWf(env: Environment, s: Solution, holder: Handle, p: Handle)
    requires Wf(s)
    ensures Wf(AddProjectSpec(env, s, holder, p).0)
  {
  }

  /** The host: the `_dte` automation object and the solution behind it. */
  class Dte {
    const env: Environment
    var solutionOpen: bool
    var projects: seq<Handle>
    var items: map<Handle, seq<Handle>>
    var live: map<Handle, ProjectData>
    var next: Handle

    function State(): (s: Solution)
      reads this
    {
      Solution(solutionOpen, projects, items, live, next)
    }

    ghost predicate Valid()
      reads this
    {
      Wf(State())
    }

    constructor (env: Environment, s: Solution)
      requires Wf(s)
      ensures Valid() && this.env == env && State() == s
    {
      this.env := env;
      solutionOpen, projects, items, live, next := s.open, s.projects, s.items, s.live, s.next;
    }

    method Remove(h: Handle) returns (o: Outcome<Error>)
      requires Valid()
      modifies this
      ensures Valid()
      ensures (State(), o) == RemoveSpec(env, old(State()), h)
    {
      RemoveSpecWf(env, State(), h);
      if RemoveCall in env.refuses || h !in live {
        return Fail(HostFailure);
      }
      projects := Without(projects, h);
      items := map f | f in items && f != h :: Without(items[f], h);
      live := DropNode(live, h);
      return Pass;
    }

    method AddSolutionFolder(name: string) returns (r: Result<Handle, Error>)
      requires Valid()
      modifies this
      ensures Valid()
      ensures (State(), r) == AddSolutionFolderSpec(env, old(State()), name)
    {
      AddSolutionFolderSpecWf(env, State(), name);
      if AddSolutionFolderCall in env.refuses {
        return Failure(HostFailure);
      }
      var f := next;
      projects := projects + [f];
      items := items[f := []];
      live := live[f := ProjectData(name, "", SolutionFolder)];
      next := f + 1;
      return Success(f);
    }

    method AddFromFile(folder: Handle, path: string) returns (r: Result<Handle, Error>)
      requires Valid()
      modifies this
      ensures Valid()
      ensures (State(), r) == AddFromFileSpec(env, old(State()), folder, path)
    {
      AddFromFileSpecWf(env, State(), folder, path);
      if AddFromFileCall in env.refuses || folder !in items || path !in env.files {
        return Failure(HostFailure);
      }
      var h := next;
      var file := env.files[path];
      items := items[folder := items[folder] + [h]];
      live := live[h := ProjectData(file.name, path, file.Object())];
      next := h + 1;
      return Success(h);
    }

    method Find(h: Handle, key: string) returns (r: Result<Option<Reference>, Error>)
      ensures r == FindSpec(env, State(), h, key)
    {
      if FindCall in env.refuses || h !in live || !live[h].obj.VSProject? {
        return Failure(HostFailure);
      }
      return Success(FirstWithIdentity(live[h].obj.references, key));
    }

    method AddProject(holder: Handle, p: Handle) returns (o: Outcome<Error>)
      requires Valid()
      modifies this
      ensures Valid()
      ensures (State(), o) == AddProjectSpec(env, old(State()), holder, p)
    {
      AddProjectSpecWf(env, State(), holder, p);
      if AddProjectCall in env.refuses || holder !in live || p !in live || holder == p
         || !live[holder].obj.VSProject?
      {
        return Fail(HostFailure);
      }
      var hd := live[holder];
      live := live[holder := hd.(obj := VSProject(hd.obj.references + [ProjectReference(p, live[p])]))];
      return Pass;
    }
  }
}

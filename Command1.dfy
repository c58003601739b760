/**
  The command that moves a project into a solution folder and re-attaches
  the references other projects held to it.

  Each routine of the command that calls the host is a method that takes
  the host `Dte`, proved equal to a function of the host state before the
  call (`...Spec`). `HasReferenceTo` and `ParseReferenceCulture` only read,
  and are functions of a `Solution` and of a `Reference`. The properties
  the command promises are lemmas about those functions (Command1Properties).
  Exceptions become `Fail`/`Failure` values that every caller passes on
  unchanged, except where the command itself catches them.
*/
module Command1 {
  import opened Wrappers
  import opened EnvDte

  // ---------------------------------------------------------------------
  // Listing the projects (GetEnvDteProjects)
  // ---------------------------------------------------------------------

  /** `char.IsWhiteSpace`: the Unicode space, line and paragraph separators,
      the controls U+0009 to U+000D, and U+0085. */
  predicate IsWhiteSpace(c: char) {
    || ('\U{0009}' <= c <= '\U{000D}')
    || c == ' ' || c == '\U{0085}' || c == '\U{00A0}' || c == '\U{1680}'
    || ('\U{2000}' <= c <= '\U{200A}')
    || c == '\U{2028}' || c == '\U{2029}' || c == '\U{202F}' || c == '\U{205F}' || c == '\U{3000}'
  }

  /** `string.IsNullOrWhiteSpace` (null is modelled as the empty string). */
  predicate IsNullOrWhiteSpace(s: string) {
    forall i :: 0 <= i < |s| ==> IsWhiteSpace(s[i])
  }

  /** A node that GetEnvDteProjects keeps: its FullName is a real path. */
  predicate HasPath(s: Solution, h: Handle) {
    h in s.live && !IsNullOrWhiteSpace(s.live[h].fullName)
  }

  /** The nodes of `hs` that have a path, in the order of `hs`. */
  function WithPath(s: Solution, hs: seq<Handle>): (r: seq<Handle>)
    ensures forall h :: h in r <==> h in hs && HasPath(s, h)
    ensures |r| <= |hs|
  {
    if hs == [] then []
    else
      var last := hs[|hs| - 1];
      assert hs == hs[..|hs| - 1] + [last];
      WithPath(s, hs[..|hs| - 1]) + (if HasPath(s, last) then [last] else [])
  }

  /** `GetEnvDteProjects`: the top-level nodes of the solution whose FullName
      is not null or white space, in solution order; with no solution open,
      reading `Solution.Projects` throws. Changes nothing. */
  method GetEnvDteProjects(dte: Dte) returns (listed: Result<seq<Handle>, Error>)
    ensures listed.Success? <==> dte.solutionOpen
    ensures listed.Failure? ==> listed.error == HostFailure
    ensures listed.Success? ==> listed.value == WithPath(dte.State(), dte.projects)
  {
    if !dte.solutionOpen {
      return Failure(HostFailure);
    }
    var projects := [];
    var all := dte.projects;
    var i := 0;
    while i < |all|
      invariant 0 <= i <= |all|
      invariant projects == WithPath(dte.State(), all[..i])
    {
      var project := all[i];
      if project in dte.live && !IsNullOrWhiteSpace(dte.live[project].fullName) {
        projects := projects + [project];
      }
      assert all[..i + 1][..i] == all[..i];
      i := i + 1;
    }
    assert all[..i] == all;
    return Success(projects);
  }

  // ---------------------------------------------------------------------
  // Finding the referrers (HasReferenceTo and the capture loop)
  // ---------------------------------------------------------------------

  /** A reference names the project by its Identity or by its Name. */
  predicate Names(reference: Reference, projectName: string) {
    reference.identity == projectName || reference.name == projectName
  }

  /** Some reference of `refs` names the project. */
  function AnyNames(refs: seq<Reference>, projectName: string): (b: bool)
    ensures b <==> exists i :: 0 <= i < |refs| && Names(refs[i], projectName)
  {
    refs != [] && (Names(refs[0], projectName) || AnyNames(refs[1..], projectName))
  }

  /** `HasReferenceTo`: the project is a VSLangProj project and one of its
      references names `projectName`; any other kind of project has none.
      Reading `Object` through a removed project's handle throws. */
  function HasReferenceTo(s: Solution, project: Handle, projectName: string): (r: Result<bool, Error>)
    ensures r.Success? <==> project in s.live
    ensures r.Failure? ==> r.error == HostFailure
    ensures r.Success? ==>
      (r.value <==> s.live[project].obj.VSProject?
                    && exists i :: 0 <= i < |s.live[project].obj.references|
                                   && Names(s.live[project].obj.references[i], projectName))
  {
    match ProjectAt(s, project)
    case Failure(e) => Failure(e)
    case Success(p) => Success(p.obj.VSProject? && AnyNames(p.obj.references, projectName))
  }

  /** The referrers the capture loop collects from `hs`, in the order of `hs`;
      it throws at the first removed handle. */
  function Referrers(s: Solution, hs: seq<Handle>, projectName: string): (r: Result<seq<Handle>, Error>)
    ensures r.Success? <==> forall i :: 0 <= i < |hs| ==> hs[i] in s.live
    ensures r.Failure? ==> r.error == HostFailure
  {
    if hs == [] then Success([])
    else
      var last := hs[|hs| - 1];
      assert hs == hs[..|hs| - 1] + [last];
      match Referrers(s, hs[..|hs| - 1], projectName)
      case Failure(e) => Failure(e)
      case Success(prefix) =>
        match HasReferenceTo(s, last, projectName)
        case Failure(e) => Failure(e)
        case Success(b) => Success(prefix + if b then [last] else [])
  }

  /** The capture holds exactly the nodes of `hs` that reference the project. */
  lemma {:induction false} ReferrersMembers(s: Solution, hs: seq<Handle>, projectName: string)
    requires Referrers(s, hs, projectName).Success?
    ensures forall h :: h in Referrers(s, hs, projectName).value <==>
                        h in hs && HasReferenceTo(s, h, projectName) == Success(true)
  {
    if hs != [] {
      var last := hs[|hs| - 1];
      assert hs == hs[..|hs| - 1] + [last];
      ReferrersMembers(s, hs[..|hs| - 1], projectName);
    }
  }

  /** One more live handle extends the capture by that handle exactly when it is a referrer. */
  lemma ReferrersStep(s: Solution, hs: seq<Handle>, h: Handle, projectName: string)
    requires Referrers(s, hs, projectName).Success? && h in s.live
    ensures Referrers(s, hs + [h], projectName).Success?
    ensures Referrers(s, hs + [h], projectName).value
         == Referrers(s, hs, projectName).value + if HasReferenceTo(s, h, projectName).value then [h] else []
  {
    assert (hs + [h])[..|hs|] == hs;
  }

  // ---------------------------------------------------------------------
  // The solution folder (GetSolutionSubFolder)
  // ---------------------------------------------------------------------

  /** Node `h` exists and its Name is exactly `name` (ordinal comparison). */
  predicate Named(s: Solution, h: Handle, name: string) {
    h in s.live && s.live[h].name == name
  }

  /** The position of the first node of `hs` named `name`. */
  function FirstNamed(s: Solution, hs: seq<Handle>, name: string): (r: Option<nat>)
    ensures r.Some? ==>
      r.value < |hs| && Named(s, hs[r.value], name)
      && forall j :: 0 <= j < r.value ==> !Named(s, hs[j], name)
    ensures r.None? ==> forall j :: 0 <= j < |hs| ==> !Named(s, hs[j], name)
  {
    if hs == [] then None
    else if Named(s, hs[0], name) then Some(0)
    else match FirstNamed(s, hs[1..], name)
      case None => None
      case Some(k) => Some(k + 1)
  }

  /** `GetSolutionSubFolder`: the first top-level node named `folderName`
      (whatever its kind), or else a new solution folder of that name. */
  function SubFolderSpec(env: Environment, s: Solution, folderName: string): (r: (Solution, Result<Handle, Error>)) {
    match FirstNamed(s, s.projects, folderName)
    case Some(i) => (s, Success(s.projects[i]))
    case None => AddSolutionFolderSpec(env, s, folderName)
  }

  method GetSolutionSubFolder(dte: Dte, folderName: string) returns (folder: Result<Handle, Error>)
    requires dte.Valid()
    modifies dte
    ensures dte.Valid()
    ensures (dte.State(), folder) == SubFolderSpec(dte.env, old(dte.State()), folderName)
  {
    var projects := dte.projects;
    var i := 0;
    while i < |projects|
      invariant 0 <= i <= |projects|
      invariant forall j :: 0 <= j < i ==> !Named(dte.State(), projects[j], folderName)
    {
      var project := projects[i];
      if dte.live[project].name == folderName {
        return Success(project);
      }
      i := i + 1;
    }
    folder := dte.AddSolutionFolder(folderName);
  }

  // ---------------------------------------------------------------------
  // The move (AddProjectToSolutionFolder)
  // ---------------------------------------------------------------------

  /** `AddProjectToSolutionFolder`: read the project's FullName, find or
      create the folder, cast it to a SolutionFolder, remove the project and
      load it again from that FullName into the folder. Every exception on
      the way gives None; the state stays as far as the steps before it got.
      A null Object passes the cast, so the project is removed and the call
      on the null folder throws. */
  function MoveSpec(env: Environment, s: Solution, project: Handle, folderName: string): (r: (Solution, Option<Handle>)) {
    if !s.open then (s, None)
    else match ProjectAt(s, project)
      case Failure(_) => (s, None)
      case Success(p) =>
        var path := p.fullName;
        var (s1, folder) := SubFolderSpec(env, s, folderName);
        if folder.Failure? then (s1, None)
        else match ProjectAt(s1, folder.value)
          case Failure(_) => (s1, None)
          case Success(f) =>
            if !(f.obj.SolutionFolder? || f.obj.NoObject?) then (s1, None)
            else if f.obj.NoObject? then (RemoveSpec(env, s1, project).0, None)
            else ReloadSpec(env, s1, project, folder.value, path)
  }

  /** The last two steps of the move: remove the project, then load `path`
      into `folder`. An exception in either gives None. */
  function ReloadSpec(env: Environment, s: Solution, project: Handle, folder: Handle, path: string)
    : (r: (Solution, Option<Handle>))
  {
    var (s1, removed) := RemoveSpec(env, s, project);
    if removed.Fail? then (s1, None)
    else
      var (s2, added) := AddFromFileSpec(env, s1, folder, path);
      if added.Failure? then (s2, None) else (s2, Some(added.value))
  }

  method AddProjectToSolutionFolder(dte: Dte, project: Handle, folderName: string) returns (moved: Option<Handle>)
    requires dte.Valid()
    modifies dte
    ensures dte.Valid()
    ensures (dte.State(), moved) == MoveSpec(dte.env, old(dte.State()), project, folderName)
  {
    if !dte.solutionOpen {
      return None;
    }
    var p := ProjectAt(dte.State(), project);
    if p.Failure? {
      return None;
    }
    var projFullname := p.value.fullName;
    var folder := GetSolutionSubFolder(dte, folderName);
    if folder.Failure? {
      return None;
    }
    var f := ProjectAt(dte.State(), folder.value);
    if f.Failure? || !(f.value.obj.SolutionFolder? || f.value.obj.NoObject?) {
      return None;
    }
    var removed := dte.Remove(project);
    if removed.Fail? || f.value.obj.NoObject? {
      return None;
    }
    var added := dte.AddFromFile(folder.value, projFullname);
    if added.Failure? {
      return None;
    }
    return Some(added.value);
  }

  // ---------------------------------------------------------------------
  // Re-attaching one reference (AddProjectReference)
  // ---------------------------------------------------------------------

  /** What `References.Find(moved.Name)` gives the command: an exception,
      including one from reading the moved project's Name, counts as absent. */
  function FoundReference(env: Environment, s: Solution, holder: Handle, moved: Handle): (r: Option<Reference>) {
    match ProjectAt(s, moved)
    case Failure(_) => None
    case Success(m) =>
      match FindSpec(env, s, holder, m.name)
      case Failure(_) => None
      case Success(found) => found
  }

  /** `AddProjectReference`: nothing to do for a holder that is not a
      VSLangProj project; "Reference already exists." when Find reports one;
      otherwise `References.AddProject(moved)`. */
  function AddProjectReferenceSpec(env: Environment, s: Solution, holder: Handle, moved: Handle): (r: (Solution, Outcome<Error>)) {
    match ProjectAt(s, holder)
    case Failure(e) => (s, Fail(e))
    case Success(h) =>
      if !h.obj.VSProject? then (s, Pass)
      else if FoundReference(env, s, holder, moved).Some? then (s, Fail(ReferenceAlreadyExists))
      else AddProjectSpec(env, s, holder, moved)
  }

  method AddProjectReference(dte: Dte, baseProject: Handle, projectToReference: Handle) returns (o: Outcome<Error>)
    requires dte.Valid()
    modifies dte
    ensures dte.Valid()
    ensures (dte.State(), o) == AddProjectReferenceSpec(dte.env, old(dte.State()), baseProject, projectToReference)
  {
    var b := ProjectAt(dte.State(), baseProject);
    if b.Failure? {
      return Fail(b.error);
    }
    if !b.value.obj.VSProject? {
      return Pass;
    }
    var reference: Option<Reference> := None;
    var target := ProjectAt(dte.State(), projectToReference);
    if target.Success? {
      var found := dte.Find(baseProject, target.value.name);
      if found.Success? {
        reference := found.value;
      }
    }
    if reference.Some? {
      return Fail(ReferenceAlreadyExists);
    }
    o := dte.AddProject(baseProject, projectToReference);
  }

  // ---------------------------------------------------------------------
  // Capture, move, rebind (SafeMoveProjectToSolutionFolder)
  // ---------------------------------------------------------------------

  /** The rebind loop: AddProjectReference on each holder in turn; the
      first exception stops the loop and is passed on. */
  function RebindSpec(env: Environment, s: Solution, holders: seq<Handle>, moved: Handle): (r: (Solution, Outcome<Error>))
    decreases |holders|
  {
    if holders == [] then (s, Pass)
    else
      var (s1, o) := AddProjectReferenceSpec(env, s, holders[0], moved);
      if o.Fail? then (s1, o) else RebindSpec(env, s1, holders[1..], moved)
  }

  /** `SafeMoveProjectToSolutionFolder`: capture the referrers among
      `projects` on the unchanged solution, move the project, and rebind
      only when the move gave a project. */
  function SafeMoveSpec(env: Environment, s: Solution, projects: seq<Handle>, project: Handle,
                        projectName: string, folderName: string): (r: (Solution, Outcome<Error>))
  {
    match Referrers(s, projects, projectName)
    case Failure(e) => (s, Fail(e))
    case Success(holders) =>
      var (s1, moved) := MoveSpec(env, s, project, folderName);
      if moved.None? then (s1, Pass) else RebindSpec(env, s1, holders, moved.value)
  }

  method SafeMoveProjectToSolutionFolder(dte: Dte, projects: seq<Handle>, project: Handle,
                                         projectName: string, solutionFolderName: string)
    returns (o: Outcome<Error>)
    requires dte.Valid()
    modifies dte
    ensures dte.Valid()
    ensures (dte.State(), o) == SafeMoveSpec(dte.env, old(dte.State()), projects, project, projectName, solutionFolderName)
  {
    var projectsToAddRefBackTo: seq<Handle> := [];
    var i := 0;
    while i < |projects|
      invariant 0 <= i <= |projects|
      invariant dte.State() == old(dte.State())
      invariant Referrers(dte.State(), projects[..i], projectName).Success?
      invariant Referrers(dte.State(), projects[..i], projectName).value == projectsToAddRefBackTo
    {
      assert projects[..i + 1] == projects[..i] + [projects[i]];
      var hasReference := HasReferenceTo(dte.State(), projects[i], projectName);
      if hasReference.Failure? {
        return Fail(hasReference.error);
      }
      ReferrersStep(dte.State(), projects[..i], projects[i], projectName);
      if hasReference.value {
        projectsToAddRefBackTo := projectsToAddRefBackTo + [projects[i]];
      }
      i := i + 1;
    }
    assert projects[..i] == projects;

    var movedProject := AddProjectToSolutionFolder(dte, project, solutionFolderName);
    if movedProject.Some? {
      ghost var moved := dte.State();
      var j := 0;
      while j < |projectsToAddRefBackTo|
        invariant 0 <= j <= |projectsToAddRefBackTo|
        invariant dte.Valid()
        invariant RebindSpec(dte.env, moved, projectsToAddRefBackTo, movedProject.value)
               == RebindSpec(dte.env, dte.State(), projectsToAddRefBackTo[j..], movedProject.value)
      {
        o := AddProjectReference(dte, projectsToAddRefBackTo[j], movedProject.value);
        if o.Fail? {
          return o;
        }
        assert projectsToAddRefBackTo[j..][1..] == projectsToAddRefBackTo[j + 1..];
        j := j + 1;
      }
    }
    return Pass;
  }

  // ---------------------------------------------------------------------
  // The command (Execute)
  // ---------------------------------------------------------------------

  /** The loop of `Execute` over `rest`: move every project named
      `projectName`; an exception ends the command. `projects` is the list
      taken at the start, handed unchanged to every move. */
  function ExecuteLoop(env: Environment, s: Solution, projects: seq<Handle>, rest: seq<Handle>,
                       projectName: string, folderName: string): (r: (Solution, Outcome<Error>))
    decreases |rest|
  {
    if rest == [] then (s, Pass)
    else match ProjectAt(s, rest[0])
      case Failure(e) => (s, Fail(e))
      case Success(p) =>
        if p.name != projectName then ExecuteLoop(env, s, projects, rest[1..], projectName, folderName)
        else
          var (s1, o) := SafeMoveSpec(env, s, projects, rest[0], projectName, folderName);
          if o.Fail? then (s1, o) else ExecuteLoop(env, s1, projects, rest[1..], projectName, folderName)
  }

  /** `Execute`, with the project and folder names as parameters. */
  function ExecuteSpec(env: Environment, s: Solution, projectName: string, folderName: string)
    : (r: (Solution, Outcome<Error>))
  {
    if !s.open then (s, Fail(HostFailure))
    else
      var projects := WithPath(s, s.projects);
      ExecuteLoop(env, s, projects, projects, projectName, folderName)
  }

  method Execute(dte: Dte, projectName: string, solutionFolderName: string) returns (o: Outcome<Error>)
    requires dte.Valid()
    modifies dte
    ensures dte.Valid()
    ensures (dte.State(), o) == ExecuteSpec(dte.env, old(dte.State()), projectName, solutionFolderName)
  {
    var listed := GetEnvDteProjects(dte);
    if listed.Failure? {
      return Fail(listed.error);
    }
    var projects := listed.value;
    assert projects == WithPath(old(dte.State()), old(dte.State()).projects);
    var i := 0;
    while i < |projects|
      invariant 0 <= i <= |projects|
      invariant dte.Valid()
      invariant ExecuteSpec(dte.env, old(dte.State()), projectName, solutionFolderName)
             == ExecuteLoop(dte.env, dte.State(), projects, projects[i..], projectName, solutionFolderName)
    {
      var project := ProjectAt(dte.State(), projects[i]);
      if project.Failure? {
        return Fail(project.error);
      }
      if project.value.name == projectName {
        o := SafeMoveProjectToSolutionFolder(dte, projects, projects[i], projectName, solutionFolderName);
        if o.Fail? {
          return o;
        }
      }
      assert projects[i..][1..] == projects[i + 1..];
      i := i + 1;
    }
    return Pass;
  }

  // ---------------------------------------------------------------------
  // Reference descriptors (GetProjectReferences)
  // ---------------------------------------------------------------------

  /** `ParseReferenceCulture`: the culture, or "neutral" when it is null or empty. */
  function ParseReferenceCulture(reference: Reference): (c: string)
    ensures c != ""
    ensures reference.culture != "" ==> c == reference.culture
    ensures reference.culture == "" ==> c == "neutral"
  {
    if reference.culture == "" then "neutral" else reference.culture
  }

  /** The descriptor GetProjectReferences stores for one reference: the
      strong-name display string for a strong-named reference, else its Path. */
  function Descriptor(reference: Reference): (d: string)
    ensures !reference.strongName ==> d == reference.path
  {
    if reference.strongName then
      reference.identity + " , Version=" + reference.version + ", Culture=" + ParseReferenceCulture(reference)
      + ", PublicKeyToken=" + reference.publicKeyToken
    else reference.path
  }

  /** The dictionary filled by the loop over `refs`; `Dictionary.Add` throws
      on the first Identity already present. */
  function DescriptorMap(refs: seq<Reference>): (r: Result<map<string, string>, Error>) {
    if refs == [] then Success(map[])
    else
      var last := refs[|refs| - 1];
      match DescriptorMap(refs[..|refs| - 1])
      case Failure(e) => Failure(e)
      case Success(m) =>
        if last.identity in m then Failure(DuplicateKey) else Success(m[last.identity := Descriptor(last)])
  }

  /** The references of a VSLangProj project pairwise differ in Identity. */
  predicate DistinctIdentities(refs: seq<Reference>) {
    forall i, j :: 0 <= i < j < |refs| ==> refs[i].identity != refs[j].identity
  }

  /** The dictionary fill succeeds exactly when the identities are distinct;
      otherwise it stops with the duplicate-key exception. */
  lemma {:induction false} DescriptorMapSucceeds(refs: seq<Reference>)
    ensures DescriptorMap(refs).Success? <==> DistinctIdentities(refs)
    ensures DescriptorMap(refs).Failure? ==> DescriptorMap(refs).error == DuplicateKey
  {
    if refs != [] {
      var prefix := refs[..|refs| - 1];
      var last := refs[|refs| - 1];
      DescriptorMapSucceeds(prefix);
      if DescriptorMap(prefix).Success? {
        DescriptorMapEntries(prefix);
        var m := DescriptorMap(prefix).value;
        if last.identity in m {
          var k :| 0 <= k < |prefix| && prefix[k].identity == last.identity;
          assert refs[k].identity == refs[|refs| - 1].identity;
        } else {
          forall i, j | 0 <= i < j < |refs| ensures refs[i].identity != refs[j].identity {
            if j < |refs| - 1 {
              assert prefix[i] == refs[i] && prefix[j] == refs[j];
            } else {
              assert prefix[i] == refs[i];
            }
          }
        }
      } else {
        var i, j :| 0 <= i < j < |prefix| && prefix[i].identity == prefix[j].identity;
        assert refs[i].identity == refs[j].identity;
      }
    }
  }

  /** A successful fill has exactly the identities as keys and maps each to
      its reference's descriptor. */
  lemma {:induction false} DescriptorMapEntries(refs: seq<Reference>)
    requires DescriptorMap(refs).Success?
    ensures forall k :: k in DescriptorMap(refs).value <==> exists i :: 0 <= i < |refs| && refs[i].identity == k
    ensures forall i :: 0 <= i < |refs| ==> DescriptorMap(refs).value[refs[i].identity] == Descriptor(refs[i])
  {
    if refs != [] {
      var prefix := refs[..|refs| - 1];
      var last := refs[|refs| - 1];
      DescriptorMapEntries(prefix);
      var m := DescriptorMap(prefix).value;
      assert DescriptorMap(refs).value == m[last.identity := Descriptor(last)];
      forall k ensures k in DescriptorMap(refs).value <==> exists i :: 0 <= i < |refs| && refs[i].identity == k {
        if k in m {
          var i :| 0 <= i < |prefix| && prefix[i].identity == k;
          assert refs[i].identity == k;
        }
        if exists i :: 0 <= i < |refs| && refs[i].identity == k {
          var i :| 0 <= i < |refs| && refs[i].identity == k;
          if i < |refs| - 1 {
            assert prefix[i].identity == k;
          }
        }
      }
      forall i | 0 <= i < |refs| ensures DescriptorMap(refs).value[refs[i].identity] == Descriptor(refs[i]) {
        if i < |refs| - 1 {
          assert prefix[i] == refs[i];
          assert refs[i].identity in m;
        }
      }
    }
  }

  /** `GetProjectReferences` on a removed, a non-VSLangProj or a VSLangProj project. */
  function ProjectReferencesSpec(s: Solution, project: Handle): (r: Result<map<string, string>, Error>) {
    match ProjectAt(s, project)
    case Failure(e) => Failure(e)
    case Success(p) => if p.obj.VSProject? then DescriptorMap(p.obj.references) else Success(map[])
  }

  method GetProjectReferences(dte: Dte, project: Handle) returns (refs: Result<map<string, string>, Error>)
    ensures refs == ProjectReferencesSpec(dte.State(), project)
  {
    var p := ProjectAt(dte.State(), project);
    if p.Failure? {
      return Failure(p.error);
    }
    var descriptors: map<string, string> := map[];
    if p.value.obj.VSProject? {
      var references := p.value.obj.references;
      var i := 0;
      while i < |references|
        invariant 0 <= i <= |references|
        invariant DescriptorMap(references[..i]) == Success(descriptors)
      {
        var reference := references[i];
        assert references[..i + 1][..i] == references[..i];
        if reference.identity in descriptors {
          DescriptorMapSucceeds(references[..i + 1]);
          DescriptorMapSucceeds(references);
          var a, b :| 0 <= a < b < i + 1 && references[..i + 1][a].identity == references[..i + 1][b].identity;
          assert references[a].identity == references[b].identity;
          return Failure(DuplicateKey);
        }
        descriptors := descriptors[reference.identity := Descriptor(reference)];
        i := i + 1;
      }
      assert references[..i] == references;
    }
    return Success(descriptors);
  }
}

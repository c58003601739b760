/**
  What the command promises, proved about the functions that its methods
  are verified against (module Command1).
*/
module Command1Properties {
  import opened Wrappers
  import opened EnvDte
  import opened Command1

  // ---------------------------------------------------------------------
  // Listing: a filter that keeps solution order
  // ---------------------------------------------------------------------

  /** Listing distributes over concatenation, so the listed projects keep
      the relative order they have in the solution. */
  lemma {:induction false} WithPathAppend(s: Solution, a: seq<Handle>, b: seq<Handle>)
    ensures WithPath(s, a + b) == WithPath(s, a) + WithPath(s, b)
    decreases |b|
  {
    if b == [] {
      assert a + b == a;
    } else {
      var b' := b[..|b| - 1];
      assert (a + b)[..|a + b| - 1] == a + b';
      assert (a + b)[|a + b| - 1] == b[|b| - 1];
      WithPathAppend(s, a, b');
    }
  }

  /** A single node is listed exactly when it has a path. */
  lemma WithPathSingle(s: Solution, h: Handle)
    ensures WithPath(s, [h]) == if HasPath(s, h) then [h] else []
  {
    assert [h][..0] == [];
  }

  // ---------------------------------------------------------------------
  // Capture: the referrers, in input order, from the unchanged solution
  // ---------------------------------------------------------------------

  /** All of `a + b` live means all of `a` and all of `b` live. */
  lemma ReferrersParts(s: Solution, a: seq<Handle>, b: seq<Handle>, projectName: string)
    requires Referrers(s, a + b, projectName).Success?
    ensures Referrers(s, a, projectName).Success? && Referrers(s, b, projectName).Success?
  {
    forall i | 0 <= i < |a| ensures a[i] in s.live {
      assert a[i] == (a + b)[i];
    }
    forall i | 0 <= i < |b| ensures b[i] in s.live {
      assert b[i] == (a + b)[|a| + i];
    }
  }

  /** One more node at the end of `b` keeps the concatenation law. */
  lemma ReferrersAppendLast(s: Solution, a: seq<Handle>, b: seq<Handle>, last: Handle, projectName: string)
    requires Referrers(s, a, projectName).Success? && Referrers(s, b, projectName).Success?
    requires Referrers(s, a + b, projectName).Success? && last in s.live
    requires Referrers(s, a + b, projectName).value
          == Referrers(s, a, projectName).value + Referrers(s, b, projectName).value
    ensures Referrers(s, a + (b + [last]), projectName).Success?
    ensures Referrers(s, a + (b + [last]), projectName).value
         == Referrers(s, a, projectName).value + Referrers(s, b + [last], projectName).value
  {
    assert a + (b + [last]) == (a + b) + [last];
    ReferrersStep(s, a + b, last, projectName);
    ReferrersStep(s, b, last, projectName);
    var ra, rb := Referrers(s, a, projectName).value, Referrers(s, b, projectName).value;
    var x := if HasReferenceTo(s, last, projectName).value then [last] else [];
    assert (ra + rb) + x == ra + (rb + x);
  }

  /** The capture distributes over concatenation (order is kept). */
  lemma {:induction false} ReferrersAppend(s: Solution, a: seq<Handle>, b: seq<Handle>, projectName: string)
    requires Referrers(s, a + b, projectName).Success?
    ensures Referrers(s, a, projectName).Success? && Referrers(s, b, projectName).Success?
    ensures Referrers(s, a + b, projectName).value
         == Referrers(s, a, projectName).value + Referrers(s, b, projectName).value
    decreases |b|
  {
    ReferrersParts(s, a, b, projectName);
    if b == [] {
      assert a + b == a;
    } else {
      var b' := b[..|b| - 1];
      var last := b[|b| - 1];
      assert b == b' + [last];
      ReferrersParts(s, a + b', [last], projectName);
      assert a + b == (a + b') + [last];
      ReferrersAppend(s, a, b', projectName);
      ReferrersAppendLast(s, a, b', last, projectName);
    }
  }

  /** The move works on what the capture returned on the solution as it was
      before any change: the rebind loop gets exactly that list. This only
      unfolds `SafeMoveSpec`; the promise is in how that function orders the
      capture before the move. */
  lemma SafeMoveRebindsCapture(env: Environment, s: Solution, projects: seq<Handle>, project: Handle,
                                projectName: string, folderName: string)
    requires Referrers(s, projects, projectName).Success?
    requires MoveSpec(env, s, project, folderName).1.Some?
    ensures SafeMoveSpec(env, s, projects, project, projectName, folderName)
         == RebindSpec(env, MoveSpec(env, s, project, folderName).0, Referrers(s, projects, projectName).value,
                       MoveSpec(env, s, project, folderName).1.value)
  {
  }

  // ---------------------------------------------------------------------
  // The folder: first match, find or create, idempotent
  // ---------------------------------------------------------------------

  /** An existing top-level node of that name is returned, the first one,
      and nothing changes; otherwise one new folder of that name is appended. */
  lemma SubFolderFindOrCreate(env: Environment, s: Solution, folderName: string)
    requires Wf(s)
    ensures var (s1, r) := SubFolderSpec(env, s, folderName);
      if exists i :: 0 <= i < |s.projects| && Named(s, s.projects[i], folderName) then
        && s1 == s && r.Success?
        && exists i :: 0 <= i < |s.projects| && r.value == s.projects[i] && Named(s, s.projects[i], folderName)
                       && forall j :: 0 <= j < i ==> !Named(s, s.projects[j], folderName)
      else if AddSolutionFolderCall in env.refuses then
        s1 == s && r == Failure(HostFailure)
      else
        && r.Success? && r.value !in s.live
        && s1.projects == s.projects + [r.value]
        && s1.live == s.live[r.value := ProjectData(folderName, "", SolutionFolder)]
        && s1.items == s.items[r.value := []]
  {
    assert s.next !in s.live;
  }

  /** Resolving the same folder name a second time gives the same node and
      changes nothing, so no second folder of that name is ever made. */
  lemma SubFolderIdempotent(env: Environment, s: Solution, folderName: string)
    requires Wf(s)
    ensures var (s1, r) := SubFolderSpec(env, s, folderName);
      r.Success? ==> SubFolderSpec(env, s1, folderName) == (s1, r)
  {
    var (s1, r) := SubFolderSpec(env, s, folderName);
    if r.Success? && FirstNamed(s, s.projects, folderName).None? {
      var f := r.value;
      assert f == s.next && f !in s.live;
      assert s1.projects == s.projects + [f];
      forall j | 0 <= j < |s.projects| ensures !Named(s1, s1.projects[j], folderName) {
        assert s1.projects[j] == s.projects[j] && s.projects[j] in s.live;
        assert s1.live[s.projects[j]] == s.live[s.projects[j]];
      }
      assert Named(s1, s1.projects[|s.projects|], folderName);
      match FirstNamed(s1, s1.projects, folderName)
      case None =>
        assert false;
      case Some(k) =>
        assert k == |s.projects|;
    }
  }

  // ---------------------------------------------------------------------
  // The move
  // ---------------------------------------------------------------------

  /** With no solution the move gives null and changes nothing. */
  lemma MoveWithoutSolution(env: Environment, s: Solution, project: Handle, folderName: string)
    requires !s.open
    ensures MoveSpec(env, s, project, folderName) == (s, None)
  {
  }

  /** Removing the project and loading its file adds no reference to a node
      that exists throughout, and keeps the host well formed. */
  lemma ReloadAddsNoReference(env: Environment, s: Solution, project: Handle, folder: Handle, path: string)
    requires Wf(s)
    ensures Wf(ReloadSpec(env, s, project, folder, path).0)
    ensures AddsNoReference(s, ReloadSpec(env, s, project, folder, path).0)
  {
    RemoveSpecWf(env, s, project);
    var s1 := RemoveSpec(env, s, project).0;
    AddFromFileSpecWf(env, s1, folder, path);
    var s2 := AddFromFileSpec(env, s1, folder, path).0;
    forall x | x in s.live && x in s2.live
      ensures NoNewReference(s.live[x], s2.live[x])
    {
      assert x < s.next;
      assert x in s1.live;
    }
  }

  /** The folder lookup keeps every node and only adds fresh ones. */
  lemma SubFolderGrows(env: Environment, s: Solution, folderName: string)
    requires Wf(s)
    ensures var s1 := SubFolderSpec(env, s, folderName).0;
      Wf(s1) && KeepsNodes(s, s1) && s.live.Keys <= s1.live.Keys && s.next <= s1.next
  {
    if FirstNamed(s, s.projects, folderName).None? {
      AddSolutionFolderSpecWf(env, s, folderName);
    }
  }

  /** The move keeps the host well formed and adds no reference to any node
      that exists before and after it: the only references it touches are the
      ones to the moved project, which the host drops with the old node. */
  lemma MoveAddsNoReference(env: Environment, s: Solution, project: Handle, folderName: string)
    requires Wf(s)
    ensures Wf(MoveSpec(env, s, project, folderName).0)
    ensures AddsNoReference(s, MoveSpec(env, s, project, folderName).0)
  {
    var t := MoveSpec(env, s, project, folderName).0;
    if s.open && project in s.live {
      var (s1, folder) := SubFolderSpec(env, s, folderName);
      SubFolderGrows(env, s, folderName);
      if folder.Success? && folder.value in s1.live && s1.live[folder.value].obj.SolutionFolder? {
        ReloadAddsNoReference(env, s1, project, folder.value, s.live[project].fullName);
        assert t == ReloadSpec(env, s1, project, folder.value, s.live[project].fullName).0;
        KeepThenAddNoReference(s, s1, t);
      } else if folder.Success? && folder.value in s1.live && s1.live[folder.value].obj.NoObject? {
        RemoveSpecWf(env, s1, project);
        assert t == RemoveSpec(env, s1, project).0;
        KeepThenAddNoReference(s, s1, t);
      } else {
        assert t == s1;
      }
    } else {
      assert t == s;
    }
  }

  /** Keeping every node and then adding no reference adds no reference. */
  lemma KeepThenAddNoReference(s: Solution, s1: Solution, t: Solution)
    requires KeepsNodes(s, s1) && s.live.Keys <= s1.live.Keys && AddsNoReference(s1, t)
    ensures AddsNoReference(s, t)
  {
    forall x | x in s.live && x in t.live
      ensures NoNewReference(s.live[x], t.live[x])
    {
      assert x in s1.live;
    }
  }

  /** A reload that gives a project: the old node is gone, the new one is
      fresh, holds the loaded file and is the last child of the folder, and
      the folder keeps its place and its name. */
  lemma ReloadSucceeded(env: Environment, s: Solution, project: Handle, folder: Handle, path: string)
    requires Wf(s) && folder in s.items && folder in s.projects && folder != project
    requires ReloadSpec(env, s, project, folder, path).1.Some?
    ensures var (t, moved) := ReloadSpec(env, s, project, folder, path);
      && project !in t.live && moved.value !in s.live && moved.value in t.live
      && path in env.files
      && t.live[moved.value] == ProjectData(env.files[path].name, path, env.files[path].Object())
      && folder in t.items && folder in t.projects && t.live[folder] == s.live[folder]
      && t.items[folder] != [] && t.items[folder][|t.items[folder]| - 1] == moved.value
  {
    RemoveSpecWf(env, s, project);
    var s1 := RemoveSpec(env, s, project).0;
    assert s1.live == DropNode(s.live, project);
    assert folder in s1.live && s1.next == s.next && s1.next !in s1.live;
  }

  /** A move that gives a project: the old node is gone and the new one is a
      node never seen before, loaded from the FullName the old node had, and
      the last child of a top-level node named `folderName`. */
  lemma MoveSucceeded(env: Environment, s: Solution, project: Handle, folderName: string)
    requires Wf(s)
    requires MoveSpec(env, s, project, folderName).1.Some?
    ensures var (t, moved) := MoveSpec(env, s, project, folderName);
      && s.open && project in s.live && project !in t.live
      && moved.value !in s.live && moved.value in t.live
      && s.live[project].fullName in env.files
      && t.live[moved.value] == ProjectData(env.files[s.live[project].fullName].name, s.live[project].fullName,
                                            env.files[s.live[project].fullName].Object())
      && exists folder :: folder in t.items && Named(t, folder, folderName) && folder in t.projects
                          && t.items[folder] != [] && t.items[folder][|t.items[folder]| - 1] == moved.value
  {
    var (s1, folder) := SubFolderSpec(env, s, folderName);
    SubFolderFindOrCreate(env, s, folderName);
    SubFolderGrows(env, s, folderName);
    var f := folder.value;
    var path := s.live[project].fullName;
    assert Named(s1, f, folderName) && f in s1.projects && f in s1.items && f != project;
    ReloadSucceeded(env, s1, project, f, path);
    var (t, moved) := ReloadSpec(env, s1, project, f, path);
    assert (t, moved) == MoveSpec(env, s, project, folderName);
    assert moved.value !in s.live;
    assert Named(t, f, folderName);
  }

  /** An exception after the removal leaves the project detached: the move
      gives null and the project is no longer in the solution. */
  lemma MoveDetachesOnFailedReload(env: Environment, s: Solution, project: Handle, folderName: string)
    requires Wf(s) && s.open && project in s.live
    requires SubFolderSpec(env, s, folderName).1.Success?
    requires var (s1, f) := SubFolderSpec(env, s, folderName);
             f.value in s1.live && s1.live[f.value].obj.SolutionFolder? && f.value != project
    requires RemoveCall !in env.refuses
    requires AddFromFileCall in env.refuses || s.live[project].fullName !in env.files
    ensures MoveSpec(env, s, project, folderName).1 == None
    ensures project !in MoveSpec(env, s, project, folderName).0.live
    ensures var t := MoveSpec(env, s, project, folderName).0;
      forall x, r :: x in t.live && t.live[x].obj.VSProject? && r in t.live[x].obj.references
        ==> r.sourceProject != Some(project)
  {
    var (s1, f) := SubFolderSpec(env, s, folderName);
    if FirstNamed(s, s.projects, folderName).None? {
      assert s.next !in s.live;
    }
    assert project in s1.live;
  }

  /** A top-level node of that name whose Object is neither a solution folder
      nor null makes the cast throw: null, and nothing has changed. */
  lemma MoveOntoNonFolder(env: Environment, s: Solution, project: Handle, folderName: string)
    requires s.open && project in s.live
    requires FirstNamed(s, s.projects, folderName).Some?
    requires var o := s.live[s.projects[FirstNamed(s, s.projects, folderName).value]].obj;
             !o.SolutionFolder? && !o.NoObject?
    ensures MoveSpec(env, s, project, folderName) == (s, None)
  {
  }

  /** A top-level node of that name whose Object is null passes the cast: the
      project is removed, loading it into the null folder throws, and the move
      gives null with the project detached and every reference to it gone. */
  lemma MoveOntoNullObject(env: Environment, s: Solution, project: Handle, folderName: string)
    requires Wf(s) && s.open && project in s.live
    requires FirstNamed(s, s.projects, folderName).Some?
    requires s.live[s.projects[FirstNamed(s, s.projects, folderName).value]].obj.NoObject?
    ensures MoveSpec(env, s, project, folderName) == (RemoveSpec(env, s, project).0, None)
    ensures var t := MoveSpec(env, s, project, folderName).0;
      && (RemoveCall !in env.refuses ==> project !in t.live)
      && (RemoveCall !in env.refuses ==>
            forall x, r :: x in t.live && t.live[x].obj.VSProject? && r in t.live[x].obj.references
              ==> r.sourceProject != Some(project))
  {
    var f := s.projects[FirstNamed(s, s.projects, folderName).value];
    assert SubFolderSpec(env, s, folderName) == (s, Success(f));
  }

  // ---------------------------------------------------------------------
  // No rebinding after a failed move
  // ---------------------------------------------------------------------

  /** When the move gives null, SafeMove ends without re-adding any
      reference, and without an exception unless the capture itself threw. */
  lemma NoRebindAfterFailedMove(env: Environment, s: Solution, projects: seq<Handle>, project: Handle,
                                projectName: string, folderName: string)
    requires Wf(s)
    requires MoveSpec(env, s, project, folderName).1.None?
    ensures var (t, o) := SafeMoveSpec(env, s, projects, project, projectName, folderName);
      && (o.Pass? <==> Referrers(s, projects, projectName).Success?)
      && AddsNoReference(s, t)
  {
    var s1 := MoveSpec(env, s, project, folderName).0;
    var (t, o) := SafeMoveSpec(env, s, projects, project, projectName, folderName);
    if Referrers(s, projects, projectName).Success? {
      assert (t, o) == (s1, Pass);
      MoveAddsNoReference(env, s, project, folderName);
    } else {
      assert t == s;
    }
  }

  // ---------------------------------------------------------------------
  // Re-attaching one reference
  // ---------------------------------------------------------------------

  /** How many references of `refs` have Identity `id`. */
  function CountIdentity(refs: seq<Reference>, id: string): (n: nat) {
    if refs == [] then 0 else (if refs[0].identity == id then 1 else 0) + CountIdentity(refs[1..], id)
  }

  lemma {:induction false} CountIdentityAppend(refs: seq<Reference>, r: Reference, id: string)
    ensures CountIdentity(refs + [r], id) == CountIdentity(refs, id) + if r.identity == id then 1 else 0
  {
    if refs != [] {
      assert (refs + [r])[1..] == refs[1..] + [r];
      CountIdentityAppend(refs[1..], r, id);
    }
  }

  lemma {:induction false} CountIdentityFind(refs: seq<Reference>, id: string)
    ensures CountIdentity(refs, id) == 0 <==> FirstWithIdentity(refs, id).None?
  {
    if refs != [] {
      CountIdentityFind(refs[1..], id);
    }
  }

  /** The four ways AddProjectReference ends. */
  lemma AddProjectReferenceCases(env: Environment, s: Solution, holder: Handle, moved: Handle)
    ensures var (t, o) := AddProjectReferenceSpec(env, s, holder, moved);
      && (holder !in s.live ==> t == s && o == Fail(HostFailure))
      && (holder in s.live && !s.live[holder].obj.VSProject? ==> t == s && o == Pass)
      && (holder in s.live && s.live[holder].obj.VSProject? && FindCall !in env.refuses && moved in s.live
          && CountIdentity(s.live[holder].obj.references, s.live[moved].name) > 0
          ==> t == s && o == Fail(ReferenceAlreadyExists))
      && (holder in s.live && s.live[holder].obj.VSProject? && o.Pass? ==>
          && moved in s.live && moved != holder
          && t.live == s.live[holder := s.live[holder].(obj := VSProject(
                 s.live[holder].obj.references + [ProjectReference(moved, s.live[moved])]))]
          && t.projects == s.projects && t.items == s.items && t.next == s.next && t.open == s.open)
      && (o.Fail? ==> t == s)
  {
    if holder in s.live && moved in s.live && s.live[holder].obj.VSProject? {
      CountIdentityFind(s.live[holder].obj.references, s.live[moved].name);
    }
  }

  /** A failing `References.Find` counts as "absent", so when Find throws
      the reference is added even if one with that Identity is there. */
  lemma AddProjectReferenceWhenFindThrows(env: Environment, s: Solution, holder: Handle, moved: Handle)
    requires FindCall in env.refuses
    requires holder in s.live && s.live[holder].obj.VSProject?
    ensures AddProjectReferenceSpec(env, s, holder, moved) == AddProjectSpec(env, s, holder, moved)
  {
  }

  /** When Find works, AddProjectReference never creates a duplicate: it
      adds a reference with the moved project's name as Identity only when
      there was none, leaving exactly one. */
  lemma AddProjectReferenceNeverDuplicates(env: Environment, s: Solution, holder: Handle, moved: Handle)
    requires FindCall !in env.refuses
    requires holder in s.live && s.live[holder].obj.VSProject? && moved in s.live
    ensures var (t, o) := AddProjectReferenceSpec(env, s, holder, moved);
      var name := s.live[moved].name;
      && (o == Fail(ReferenceAlreadyExists) <==> CountIdentity(s.live[holder].obj.references, name) > 0)
      && (o.Pass? ==>
          && CountIdentity(s.live[holder].obj.references, name) == 0
          && t.live[holder].obj.VSProject?
          && CountIdentity(t.live[holder].obj.references, name) == 1)
  {
    var refs := s.live[holder].obj.references;
    var name := s.live[moved].name;
    CountIdentityFind(refs, name);
    CountIdentityAppend(refs, ProjectReference(moved, s.live[moved]), name);
  }

  // ---------------------------------------------------------------------
  // The rebind loop
  // ---------------------------------------------------------------------

  /** Rebinding keeps every node's Name, FullName and kind, and changes no
      node that is not a holder. */
  ghost predicate SameShape(s: Solution, t: Solution, holders: seq<Handle>) {
    && t.live.Keys == s.live.Keys
    && t.projects == s.projects && t.items == s.items && t.next == s.next && t.open == s.open
    && (forall x :: x in s.live ==>
          && t.live[x].name == s.live[x].name
          && t.live[x].fullName == s.live[x].fullName
          && t.live[x].obj.VSProject? == s.live[x].obj.VSProject?)
    && (forall x :: x in s.live && x !in holders ==> t.live[x] == s.live[x])
  }

  lemma AddProjectReferenceShape(env: Environment, s: Solution, holder: Handle, moved: Handle)
    ensures SameShape(s, AddProjectReferenceSpec(env, s, holder, moved).0, [holder])
  {
    var (t, o) := AddProjectReferenceSpec(env, s, holder, moved);
    if t != s {
      assert t == AddProjectSpec(env, s, holder, moved).0;
      assert t.live == s.live[holder := t.live[holder]];
    }
  }

  lemma {:induction false} RebindShape(env: Environment, s: Solution, holders: seq<Handle>, moved: Handle)
    ensures SameShape(s, RebindSpec(env, s, holders, moved).0, holders)
    decreases |holders|
  {
    if holders != [] {
      var (s1, o) := AddProjectReferenceSpec(env, s, holders[0], moved);
      AddProjectReferenceShape(env, s, holders[0], moved);
      if o.Pass? {
        RebindShape(env, s1, holders[1..], moved);
        forall x | x in s.live && x !in holders
          ensures RebindSpec(env, s, holders, moved).0.live[x] == s.live[x]
        {
          assert x !in holders[1..];
        }
      }
    }
  }

  /** The first exception stops the loop: the holders before it were all
      processed, the failing one left no trace, and the rest were not touched. */
  lemma {:induction false} RebindStopsAtFirstFailure(env: Environment, s: Solution, holders: seq<Handle>, moved: Handle)
    requires RebindSpec(env, s, holders, moved).1.Fail?
    ensures var (t, o) := RebindSpec(env, s, holders, moved);
      exists k :: 0 <= k < |holders|
        && RebindSpec(env, s, holders[..k], moved) == (t, Pass)
        && AddProjectReferenceSpec(env, t, holders[k], moved) == (t, o)
    decreases |holders|
  {
    var (s1, o1) := AddProjectReferenceSpec(env, s, holders[0], moved);
    var (t, o) := RebindSpec(env, s, holders, moved);
    if o1.Fail? {
      assert holders[..0] == [];
      assert RebindSpec(env, s, holders[..0], moved) == (s, Pass);
    } else {
      RebindStopsAtFirstFailure(env, s1, holders[1..], moved);
      var k :| 0 <= k < |holders[1..]|
        && RebindSpec(env, s1, holders[1..][..k], moved) == (t, Pass)
        && AddProjectReferenceSpec(env, t, holders[1..][k], moved) == (t, o);
      assert holders[..k + 1][0] == holders[0] && holders[..k + 1][1..] == holders[1..][..k];
      assert RebindSpec(env, s, holders[..k + 1], moved) == (t, Pass);
    }
  }

  /** Once a holder has a reference with the moved project's name as
      Identity, a loop that ends without an exception leaves it as it is. */
  lemma {:induction false} RebindKeepsBound(env: Environment, s: Solution, holders: seq<Handle>, moved: Handle, x: Handle)
    requires FindCall !in env.refuses && moved in s.live
    requires x in s.live && s.live[x].obj.VSProject?
    requires CountIdentity(s.live[x].obj.references, s.live[moved].name) > 0
    requires RebindSpec(env, s, holders, moved).1.Pass?
    ensures x in RebindSpec(env, s, holders, moved).0.live
    ensures RebindSpec(env, s, holders, moved).0.live[x] == s.live[x]
    decreases |holders|
  {
    RebindShape(env, s, holders, moved);
    if holders != [] {
      var (s1, o1) := AddProjectReferenceSpec(env, s, holders[0], moved);
      AddProjectReferenceCases(env, s, holders[0], moved);
      AddProjectReferenceShape(env, s, holders[0], moved);
      assert holders[0] != x;
      assert s1.live[x] == s.live[x] && s1.live[moved].name == s.live[moved].name;
      RebindKeepsBound(env, s1, holders[1..], moved, x);
    }
  }

  /** A loop that ends without an exception (and a working Find) leaves every
      VSLangProj holder with exactly one reference whose Identity is the
      moved project's name. */
  lemma {:induction false} RebindBindsEveryHolder(env: Environment, s: Solution, holders: seq<Handle>, moved: Handle)
    requires FindCall !in env.refuses && moved in s.live
    requires RebindSpec(env, s, holders, moved).1.Pass?
    ensures var t := RebindSpec(env, s, holders, moved).0;
      forall x :: x in holders ==>
        x in t.live && (t.live[x].obj.VSProject? ==> CountIdentity(t.live[x].obj.references, s.live[moved].name) == 1)
    decreases |holders|
  {
    if holders != [] {
      var t := RebindSpec(env, s, holders, moved).0;
      var h := holders[0];
      var (s1, o1) := AddProjectReferenceSpec(env, s, h, moved);
      AddProjectReferenceShape(env, s, h, moved);
      assert s1.live[moved].name == s.live[moved].name;
      RebindBindsEveryHolder(env, s1, holders[1..], moved);
      assert h in s.live;
      if s.live[h].obj.VSProject? {
        AddProjectReferenceNeverDuplicates(env, s, h, moved);
        RebindKeepsBound(env, s1, holders[1..], moved, h);
      } else {
        RebindShape(env, s1, holders[1..], moved);
      }
      forall x | x in holders
        ensures x in t.live && (t.live[x].obj.VSProject? ==> CountIdentity(t.live[x].obj.references, s.live[moved].name) == 1)
      {
        if x != h {
          assert x in holders[1..];
        }
      }
    }
  }

  // ---------------------------------------------------------------------
  // The whole SafeMove
  // ---------------------------------------------------------------------

  /** After SafeMove ends without an exception and with a successful move,
      every captured referrer that is a VSLangProj project holds exactly one
      reference named after the moved project. */
  lemma SafeMoveRebindsReferrers(env: Environment, s: Solution, projects: seq<Handle>, project: Handle,
                                 projectName: string, folderName: string)
    requires Wf(s) && FindCall !in env.refuses
    requires MoveSpec(env, s, project, folderName).1.Some?
    requires SafeMoveSpec(env, s, projects, project, projectName, folderName).1.Pass?
    ensures var (s1, moved) := MoveSpec(env, s, project, folderName);
      var t := SafeMoveSpec(env, s, projects, project, projectName, folderName).0;
      && Referrers(s, projects, projectName).Success?
      && forall x :: x in projects && HasReferenceTo(s, x, projectName) == Success(true) ==>
           x in t.live && (t.live[x].obj.VSProject? ==> CountIdentity(t.live[x].obj.references, s1.live[moved.value].name) == 1)
  {
    var (s1, moved) := MoveSpec(env, s, project, folderName);
    assert Referrers(s, projects, projectName).Success?;
    ReferrersMembers(s, projects, projectName);
    MoveSucceeded(env, s, project, folderName);
    RebindBindsEveryHolder(env, s1, Referrers(s, projects, projectName).value, moved.value);
  }

  // ---------------------------------------------------------------------
  // Execute
  // ---------------------------------------------------------------------

  lemma {:induction false} ExecuteLoopSkips(env: Environment, s: Solution, projects: seq<Handle>, rest: seq<Handle>,
                                            projectName: string, folderName: string)
    requires forall i :: 0 <= i < |rest| ==> rest[i] in s.live && s.live[rest[i]].name != projectName
    ensures ExecuteLoop(env, s, projects, rest, projectName, folderName) == (s, Pass)
    decreases |rest|
  {
    if rest != [] {
      ExecuteLoopSkips(env, s, projects, rest[1..], projectName, folderName);
    }
  }

  /** With no listed project of that name the command does nothing. */
  lemma ExecuteWithoutTarget(env: Environment, s: Solution, projectName: string, folderName: string)
    requires forall h :: h in s.projects && HasPath(s, h) ==> s.live[h].name != projectName
    ensures ExecuteSpec(env, s, projectName, folderName) == (s, if s.open then Pass else Fail(HostFailure))
  {
    if s.open {
      var listed := WithPath(s, s.projects);
      assert forall i :: 0 <= i < |listed| ==> listed[i] in listed;
      ExecuteLoopSkips(env, s, listed, listed, projectName, folderName);
    }
  }

  /** With no solution open, listing the projects throws before anything is
      moved: the command ends with an exception and changes nothing. */
  lemma ExecuteWithoutSolution(env: Environment, s: Solution, projectName: string, folderName: string)
    requires !s.open
    ensures ExecuteSpec(env, s, projectName, folderName) == (s, Fail(HostFailure))
  {
  }

  // ---------------------------------------------------------------------
  // Descriptors: the strong-name format can be read back
  // ---------------------------------------------------------------------

  /** The comma-separated fields of a string. */
  function SplitAtCommas(s: string): (parts: seq<string>)
    ensures |parts| >= 1
  {
    if s == [] then [""]
    else
      var rest := SplitAtCommas(s[1..]);
      if s[0] == ',' then [""] + rest else [[s[0]] + rest[0]] + rest[1..]
  }

  lemma {:induction false} SplitWithoutComma(a: string)
    requires ',' !in a
    ensures SplitAtCommas(a) == [a]
  {
    if a != [] {
      SplitWithoutComma(a[1..]);
      assert [a[0]] + a[1..] == a;
    }
  }

  lemma {:induction false} SplitAtFirstComma(a: string, b: string)
    requires ',' !in a
    ensures SplitAtCommas(a + [','] + b) == [a] + SplitAtCommas(b)
  {
    if a == [] {
      assert a + [','] + b == [','] + b;
      assert ([','] + b)[1..] == b;
    } else {
      assert (a + [','] + b)[1..] == a[1..] + [','] + b;
      SplitAtFirstComma(a[1..], b);
      assert [a[0]] + a[1..] == a;
    }
  }

  function DropPrefix(s: string, prefix: string): (r: Option<string>) {
    if prefix <= s then Some(s[|prefix|..]) else None
  }

  function DropSuffix(s: string, suffix: string): (r: Option<string>) {
    if |suffix| <= |s| && s[|s| - |suffix|..] == suffix then Some(s[..|s| - |suffix|]) else None
  }

  /** Reads a strong-name descriptor back into Identity, Version, Culture and PublicKeyToken. */
  function ParseStrongDescriptor(d: string): (fields: Option<(string, string, string, string)>) {
    var parts := SplitAtCommas(d);
    if |parts| != 4 then None
    else
      match (DropSuffix(parts[0], " "), DropPrefix(parts[1], " Version="),
             DropPrefix(parts[2], " Culture="), DropPrefix(parts[3], " PublicKeyToken="))
      case (Some(identity), Some(version), Some(culture), Some(token)) => Some((identity, version, culture, token))
      case _ => None
  }

  /** The culture field of a descriptor never holds a comma the reference's culture does not. */
  lemma CultureWithoutComma(r: Reference)
    requires ',' !in r.culture
    ensures ',' !in ParseReferenceCulture(r)
  {
    if r.culture == "" {
      assert ParseReferenceCulture(r) == "neutral";
    }
  }

  /** A strong-name descriptor of comma-free fields splits into its four fields. */
  lemma StrongDescriptorSplit(r: Reference)
    requires r.strongName
    requires ',' !in r.identity && ',' !in r.version && ',' !in r.culture && ',' !in r.publicKeyToken
    ensures SplitAtCommas(Descriptor(r))
         == [r.identity + " ", " Version=" + r.version, " Culture=" + ParseReferenceCulture(r),
             " PublicKeyToken=" + r.publicKeyToken]
  {
    var f0 := r.identity + " ";
    var f1 := " Version=" + r.version;
    var f2 := " Culture=" + ParseReferenceCulture(r);
    var f3 := " PublicKeyToken=" + r.publicKeyToken;
    CultureWithoutComma(r);
    assert ',' !in " " && ',' !in " Version=" && ',' !in " Culture=" && ',' !in " PublicKeyToken=";
    assert ',' !in f0 && ',' !in f1 && ',' !in f2 && ',' !in f3;
    StrongDescriptorShape(r);
    SplitWithoutComma(f3);
    SplitAtFirstComma(f2, f3);
    SplitAtFirstComma(f1, f2 + [','] + f3);
    SplitAtFirstComma(f0, f1 + [','] + (f2 + [','] + f3));
  }

  /** A strong-named reference whose fields hold no comma: its descriptor
      gives back its Identity, Version, culture ("neutral" for none) and token. */
  lemma StrongDescriptorRoundTrip(r: Reference)
    requires r.strongName
    requires ',' !in r.identity && ',' !in r.version && ',' !in r.culture && ',' !in r.publicKeyToken
    ensures ParseStrongDescriptor(Descriptor(r))
         == Some((r.identity, r.version, ParseReferenceCulture(r), r.publicKeyToken))
  {
    StrongDescriptorSplit(r);
    var c := ParseReferenceCulture(r);
    var f0 := r.identity + " ";
    var f1 := " Version=" + r.version;
    var f2 := " Culture=" + c;
    var f3 := " PublicKeyToken=" + r.publicKeyToken;
    assert DropSuffix(f0, " ") == Some(r.identity) by {
      assert f0[|f0| - 1..] == " " && f0[..|f0| - 1] == r.identity;
    }
    assert DropPrefix(f1, " Version=") == Some(r.version) by {
      assert f1[..|" Version="|] == " Version=" && f1[|" Version="|..] == r.version;
    }
    assert DropPrefix(f2, " Culture=") == Some(c) by {
      assert f2[..|" Culture="|] == " Culture=" && f2[|" Culture="|..] == c;
    }
    assert DropPrefix(f3, " PublicKeyToken=") == Some(r.publicKeyToken) by {
      assert f3[..|" PublicKeyToken="|] == " PublicKeyToken=" && f3[|" PublicKeyToken="|..] == r.publicKeyToken;
    }
  }

  /** Regrouping a concatenation of nine strings (used for the descriptor shape). */
  lemma RegroupFields(i: string, sp: string, ver: string, v: string, cul: string, c: string,
                      tok: string, t: string, comma: string)
    ensures i + (sp + comma + ver) + v + (comma + cul) + c + (comma + tok) + t
         == (i + sp) + comma + ((ver + v) + comma + ((cul + c) + comma + (tok + t)))
  {
    var x3 := tok + t;
    var x2 := (cul + c) + comma + x3;
    var x1 := (ver + v) + comma + x2;
    assert (comma + tok) + t == comma + x3;
    assert i + (sp + comma + ver) + v + (comma + cul) + c + (comma + tok) + t
        == i + (sp + comma + ver) + v + (comma + cul) + c + (comma + x3);
    assert c + (comma + x3) == c + comma + x3;
    assert (comma + cul) + c + (comma + x3) == comma + x2;
    assert v + (comma + x2) == v + comma + x2;
    assert (sp + comma + ver) + v + (comma + x2) == sp + comma + x1;
  }

  /** A strong-name descriptor, bracketed as its four comma-separated fields. */
  lemma StrongDescriptorShape(r: Reference)
    requires r.strongName
    ensures Descriptor(r)
         == (r.identity + " ") + [','] + ((" Version=" + r.version) + [','] + ((" Culture=" + ParseReferenceCulture(r))
            + [','] + (" PublicKeyToken=" + r.publicKeyToken)))
  {
    assert " , Version=" == " " + [','] + " Version=";
    assert ", Culture=" == [','] + " Culture=";
    assert ", PublicKeyToken=" == [','] + " PublicKeyToken=";
    RegroupFields(r.identity, " ", " Version=", r.version, " Culture=", ParseReferenceCulture(r),
                  " PublicKeyToken=", r.publicKeyToken, [',']);
  }

  /** Comma-free strong-named references with the same descriptor agree on
      Identity, Version, culture and PublicKeyToken. */
  lemma StrongDescriptorDetermines(r1: Reference, r2: Reference)
    requires r1.strongName && r2.strongName
    requires ',' !in r1.identity && ',' !in r1.version && ',' !in r1.culture && ',' !in r1.publicKeyToken
    requires ',' !in r2.identity && ',' !in r2.version && ',' !in r2.culture && ',' !in r2.publicKeyToken
    requires Descriptor(r1) == Descriptor(r2)
    ensures r1.identity == r2.identity && r1.version == r2.version
    ensures ParseReferenceCulture(r1) == ParseReferenceCulture(r2) && r1.publicKeyToken == r2.publicKeyToken
  {
    StrongDescriptorRoundTrip(r1);
    StrongDescriptorRoundTrip(r2);
  }
}

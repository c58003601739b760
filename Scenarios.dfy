/**
  Whole runs of the command on a small, fixed solution: projects A and B
  (nodes 0 and 1) and library L (node 2), moved into a folder "Libs" that
  does not exist yet.
*/
module Command1Scenarios {
  import opened Wrappers
  import opened EnvDte
  import opened Command1

  /** The project reference to node `h` that `References.AddProject` makes. */
  function RefTo(h: Handle, name: string, path: string): (r: Reference) {
    Reference(name, name, false, "", "", "", path, Some(h))
  }

  /** A file reference to a built L.dll: it names L but is not a project reference. */
  function LibraryDll(): (r: Reference) {
    Reference("L", "L", false, "", "", "", "bin/L.dll", None)
  }

  /** A holds the one reference `a`; B holds a project reference to L. */
  function Before(a: Reference): (s: Solution) {
    Solution(true, [0, 1, 2], map[],
             map[0 := ProjectData("A", "A.csproj", VSProject([a])),
                 1 := ProjectData("B", "B.csproj", VSProject([RefTo(2, "L", "L.csproj")])),
                 2 := ProjectData("L", "L.csproj", VSProject([]))],
             3)
  }

  /** A host where L's file loads back and no call throws. */
  function Host(): (env: Environment) {
    Environment(map["L.csproj" := ProjectFile("L", Some([]))], {})
  }

  /** After "Libs" is created as node 3. */
  function WithFolder(a: Reference): (s: Solution) {
    Solution(true, [0, 1, 2, 3], map[3 := []],
             Before(a).live[3 := ProjectData("Libs", "", SolutionFolder)], 4)
  }

  /** After L (node 2) is removed: A is left with `kept`, B with nothing. */
  function Removed(kept: seq<Reference>): (s: Solution) {
    Solution(true, [0, 1, 3], map[3 := []],
             map[0 := ProjectData("A", "A.csproj", VSProject(kept)),
                 1 := ProjectData("B", "B.csproj", VSProject([])),
                 3 := ProjectData("Libs", "", SolutionFolder)], 4)
  }

  /** After L is reloaded as node 4 inside "Libs". */
  function Reloaded(kept: seq<Reference>): (s: Solution) {
    Removed(kept).(items := map[3 := [4]],
                   live := Removed(kept).live[4 := ProjectData("L", "L.csproj", VSProject([]))],
                   next := 5)
  }

  /** After A and then B reference node 4. */
  function Rebound(): (s: Solution) {
    Reloaded([]).(live := Reloaded([]).live[0 := ProjectData("A", "A.csproj", VSProject([RefTo(4, "L", "L.csproj")]))]
                                           [1 := ProjectData("B", "B.csproj", VSProject([RefTo(4, "L", "L.csproj")]))])
  }

  lemma BeforePaths(a: Reference)
    ensures HasPath(Before(a), 0) && HasPath(Before(a), 1) && HasPath(Before(a), 2)
  {
    var s := Before(a);
    assert HasPath(s, 0) by { assert s.live[0].fullName[0] == 'A' && !IsWhiteSpace('A'); }
    assert HasPath(s, 1) by { assert s.live[1].fullName[0] == 'B' && !IsWhiteSpace('B'); }
    assert HasPath(s, 2) by { assert s.live[2].fullName[0] == 'L' && !IsWhiteSpace('L'); }
  }

  /** Three nodes with a path are listed, in order, whatever else the solution holds. */
  lemma ListedThree(s: Solution, x: Handle, y: Handle, z: Handle)
    requires HasPath(s, x) && HasPath(s, y) && HasPath(s, z)
    ensures WithPath(s, [x, y, z]) == [x, y, z]
  {
    assert WithPath(s, [x]) == [x] by { assert [x][..0] == []; }
    assert WithPath(s, [x, y]) == [x, y] by { assert [x, y][..1] == [x]; }
    assert [x, y, z][..2] == [x, y];
  }

  /** All three nodes have a path, so all three are listed. */
  lemma BeforeListing(a: Reference)
    ensures WithPath(Before(a), [0, 1, 2]) == [0, 1, 2]
  {
    BeforePaths(a);
    ListedThree(Before(a), 0, 1, 2);
  }

  /** A and B name L among their references; L names nothing. */
  lemma BeforeReferrers(a: Reference)
    requires a.name == "L"
    ensures Referrers(Before(a), [0, 1, 2], "L").Success?
    ensures Referrers(Before(a), [0, 1, 2], "L").value == [0, 1]
  {
    var s := Before(a);
    assert HasReferenceTo(s, 0, "L") == Success(true) by { assert Names(s.live[0].obj.references[0], "L"); }
    assert HasReferenceTo(s, 1, "L") == Success(true) by { assert Names(s.live[1].obj.references[0], "L"); }
    assert HasReferenceTo(s, 2, "L") == Success(false);
    ReferrersStep(s, [], 0, "L");
    assert [] + [0] == [0];
    ReferrersStep(s, [0], 1, "L");
    assert [0] + [1] == [0, 1];
    ReferrersStep(s, [0, 1], 2, "L");
    assert [0, 1] + [2] == [0, 1, 2];
  }

  lemma BeforeFolder(a: Reference)
    ensures SubFolderSpec(Host(), Before(a), "Libs") == (WithFolder(a), Success(3))
  {
    var s := Before(a);
    assert FirstNamed(s, s.projects, "Libs") == None by {
      assert !Named(s, 0, "Libs") && !Named(s, 1, "Libs") && !Named(s, 2, "Libs");
    }
    assert s.projects + [3] == [0, 1, 2, 3];
    assert s.items[3 := []] == map[3 := []];
  }

  /** Removing L drops the project references to it, and only those. */
  lemma RemoveLibraryNodes(a: Reference)
    ensures DropNode(WithFolder(a).live, 2) == Removed(WithoutSource([a], 2)).live
  {
    var s := WithFolder(a);
    var t := Removed(WithoutSource([a], 2));
    var m := DropNode(s.live, 2);
    assert m.Keys == {0, 1, 3};
    assert m[0] == t.live[0];
    assert m[1] == t.live[1] by {
      assert WithoutSource(s.live[1].obj.references, 2) == [] by {
        assert s.live[1].obj.references[1..] == [];
      }
    }
    assert m[3] == t.live[3];
  }

  lemma RemoveLibraryFolders(a: Reference)
    ensures (map f | f in WithFolder(a).items && f != 2 :: Without(WithFolder(a).items[f], 2)) == map[3 := []]
  {
    assert Without([], 2) == [];
  }

  lemma RemoveLibrary(a: Reference)
    ensures RemoveSpec(Host(), WithFolder(a), 2) == (Removed(WithoutSource([a], 2)), Pass)
  {
    var s := WithFolder(a);
    assert Without(s.projects, 2) == [0, 1, 3];
    RemoveLibraryNodes(a);
    RemoveLibraryFolders(a);
    assert RemoveSpec(Host(), s, 2).0 == s.(projects := [0, 1, 3], items := map[3 := []], live := DropNode(s.live, 2));
  }

  lemma ReloadLibrary(kept: seq<Reference>)
    ensures AddFromFileSpec(Host(), Removed(kept), 3, "L.csproj") == (Reloaded(kept), Success(4))
  {
    assert Host().files["L.csproj"].Object() == VSProject([]);
    assert [] + [4] == [4];
    assert Removed(kept).items[3 := [4]] == map[3 := [4]];
  }

  lemma MoveLibrary(a: Reference)
    ensures MoveSpec(Host(), Before(a), 2, "Libs") == (Reloaded(WithoutSource([a], 2)), Some(4))
  {
    BeforeFolder(a);
    RemoveReloadLibrary(a);
    var s := Before(a);
    assert ProjectAt(s, 2) == Success(s.live[2]);
    assert ProjectAt(WithFolder(a), 3) == Success(ProjectData("Libs", "", SolutionFolder));
  }

  lemma RemoveReloadLibrary(a: Reference)
    ensures ReloadSpec(Host(), WithFolder(a), 2, 3, "L.csproj") == (Reloaded(WithoutSource([a], 2)), Some(4))
  {
    RemoveLibrary(a);
    ReloadLibrary(WithoutSource([a], 2));
  }

  /** The command runs SafeMove once, on L, the last listed node. */
  lemma ExecuteMovesLibrary(a: Reference, t: Solution, o: Outcome<Error>)
    requires a.name == "L"
    requires RebindSpec(Host(), Reloaded(WithoutSource([a], 2)), [0, 1], 4) == (t, o)
    ensures ExecuteSpec(Host(), Before(a), "L", "Libs") == (t, o)
  {
    BeforeListing(a);
    BeforeReferrers(a);
    MoveLibrary(a);
    var s := Before(a);
    assert SafeMoveSpec(Host(), s, [0, 1, 2], 2, "L", "Libs") == (t, o);
    assert [0, 1, 2][1..] == [1, 2];
    assert [1, 2][1..] == [2];
    assert [2][1..] == [];
    assert ExecuteLoop(Host(), s, [0, 1, 2], [2], "L", "Libs") == (t, o) by {
      assert ExecuteLoop(Host(), t, [0, 1, 2], [], "L", "Libs") == (t, Pass);
    }
    assert ExecuteLoop(Host(), s, [0, 1, 2], [1, 2], "L", "Libs") == (t, o);
    assert ExecuteLoop(Host(), s, [0, 1, 2], [0, 1, 2], "L", "Libs") == (t, o);
  }

  /** Moving L into "Libs" when A and B both hold project references to it:
      the folder is created as node 3, L is reloaded as node 4 inside it, and
      A and B each end with one reference, to node 4. */
  lemma MoveLibraryIntoNewFolder()
    ensures ExecuteSpec(Host(), Before(RefTo(2, "L", "L.csproj")), "L", "Libs") == (Rebound(), Pass)
  {
    var a := RefTo(2, "L", "L.csproj");
    assert WithoutSource([a], 2) == [] by { assert [a][1..] == []; }
    var s0 := Reloaded([]);
    var s1 := s0.(live := s0.live[0 := Rebound().live[0]]);
    assert FoundReference(Host(), s0, 0, 4) == None;
    assert [] + [ProjectReference(4, s0.live[4])] == [RefTo(4, "L", "L.csproj")];
    assert AddProjectReferenceSpec(Host(), s0, 0, 4) == (s1, Pass);
    assert FoundReference(Host(), s1, 1, 4) == None;
    assert AddProjectReferenceSpec(Host(), s1, 1, 4) == (Rebound(), Pass);
    assert [0, 1][1..] == [1];
    assert [1][1..] == [];
    ExecuteMovesLibrary(a, Rebound(), Pass);
  }

  /** When A's reference to L is a file reference, the removal leaves it in
      place, Find reports it, and the command stops with "Reference already
      exists." at A: B, which lost its project reference, is never rebound. */
  lemma StaleReferenceStopsTheRebind()
    ensures ExecuteSpec(Host(), Before(LibraryDll()), "L", "Libs")
         == (Reloaded([LibraryDll()]), Fail(ReferenceAlreadyExists))
  {
    var a := LibraryDll();
    assert WithoutSource([a], 2) == [a] by { assert [a][1..] == []; }
    var s0 := Reloaded([a]);
    assert FoundReference(Host(), s0, 0, 4) == Some(a);
    assert AddProjectReferenceSpec(Host(), s0, 0, 4) == (s0, Fail(ReferenceAlreadyExists));
    ExecuteMovesLibrary(a, s0, Fail(ReferenceAlreadyExists));
  }
}

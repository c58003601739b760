# Moving a project into a solution folder, with its references re-attached

`VSIXProject1/Command1.cs` is a Visual Studio extension command. It lists
the top-level nodes of the open solution (`Solution.Projects`) whose
FullName is not null or white space; a project nested inside a solution
folder is not among them. It moves every listed project whose Name is the
given one into the first top-level node with the folder name, and creates
that node as a new solution folder when there is none. The host
performs the move by removing the project and loading its file again into
the folder. That removal both invalidates the old project object and drops
every project reference other projects held to it. So, before moving, the
command records which projects referenced the project. Afterwards it adds a
project reference to the re-loaded project back into each of them.

The model has five files:

- `Wrappers.dfy`: `Option`, `Result` and `Outcome`. These stand in for null
  returns and for thrown exceptions.
- `EnvDte.dfy`: the host, as far as the command uses it.
  - A `Solution` value holds the top-level projects, the children of every
    solution folder, and the table of live project objects.
  - Each project object has a Name, a FullName and an `Object`. The `Object`
    is a solution folder, a VSLangProj project with its `References`, null,
    or anything else.
  - The host calls the command makes (`Solution.Remove`,
    `Solution2.AddSolutionFolder`, `SolutionFolder.AddFromFile`,
    `References.Find` and `References.AddProject`) are each a function on
    that value.
  - `Wf` is the host invariant every call keeps.
  - Class `Dte` holds the same state in mutable fields. Its methods are
    proved equal to those functions.
- `Command1.dfy`: the routines of `Command1.cs`.
  - Each routine that calls the host is a module-level method that takes
    the `Dte` object and performs the same host calls in the same order.
    Each is proved to produce exactly the state and outcome given by a
    function of the state before the call (`MoveSpec`, `SafeMoveSpec`,
    `ExecuteSpec`, and so on).
  - `HasReferenceTo` and `ParseReferenceCulture` only read, so they are
    functions: one of a `Solution` and a handle, one of a `Reference`.
- `Command1Properties.dfy`: what the command promises, proved about those
  functions.
- `Scenarios.dfy`: two whole runs of the command on a fixed three-project
  solution.

Modelling choices:

- A project object is a handle, i.e. a number. Once a project has been
  removed its handle is stale: reading anything through it fails, just as
  a COM object of a removed project throws.
- A handle never seen before is given to every folder and project the host
  creates.
- `Environment.refuses` names kinds of host call (Remove, AddSolutionFolder,
  AddFromFile, Find, AddProject). A refused kind throws on every call, and
  the other kinds throw only for a stale handle, for a file that is not in
  `Environment.files`, or for `AddProject` of a project to itself.
- Every exception `Command1.cs` does not catch reaches the caller
  unchanged, as a `Fail` or `Failure` value.

## Model

| member | source | states |
|---|---|---|
| EnvDte.FirstWithIdentity | VSIXProject1/Command1.cs:143 | `References.Find(key)`: None exactly when no reference has Identity `key`; otherwise the reference at the first position whose Identity is `key` |
| EnvDte.ProjectReference | VSIXProject1/Command1.cs:156 | the reference `AddProject` creates has the project's name as Identity, is not strong-named, and points at the project node |
| EnvDte.WithoutSource | VSIXProject1/Command1.cs:180 | the references left once a project is removed: exactly those that are not project references to it |
| EnvDte.Unreferenced | VSIXProject1/Command1.cs:180 | removing a project changes no other node's Name, FullName or kind, and changes nothing that is not a VSLangProj project; a VSLangProj node keeps exactly its references that are not project references to the removed node |
| EnvDte.DropNode | VSIXProject1/Command1.cs:180 | after a removal the live nodes are all the others, each stripped of its references to the removed one |
| EnvDte.RemoveSpecWf | VSIXProject1/Command1.cs:180 | `Solution.Remove` keeps the host well formed, creates no node, and adds no reference to any node |
| EnvDte.AddSolutionFolderSpecWf | VSIXProject1/Command1.cs:209 | `AddSolutionFolder` keeps the host well formed and every existing node, and adds only a fresh one |
| EnvDte.AddFromFileSpecWf | VSIXProject1/Command1.cs:182 | `AddFromFile` keeps the host well formed and every existing node, and adds only a fresh one |
| EnvDte.AddProjectSpecWf | VSIXProject1/Command1.cs:156 | `References.AddProject` keeps the host well formed |
| EnvDte.Dte.Remove | VSIXProject1/Command1.cs:180 | the object's new state and outcome are those of `RemoveSpec` on its old state |
| EnvDte.Dte.AddSolutionFolder | VSIXProject1/Command1.cs:209 | new state and result as `AddSolutionFolderSpec` |
| EnvDte.Dte.AddFromFile | VSIXProject1/Command1.cs:182 | new state and result as `AddFromFileSpec` |
| EnvDte.Dte.Find | VSIXProject1/Command1.cs:143 | changes nothing and gives `FindSpec` |
| EnvDte.Dte.AddProject | VSIXProject1/Command1.cs:156 | new state and outcome as `AddProjectSpec` |
| Command1.WithPath | VSIXProject1/Command1.cs:275-283 | a node is listed exactly when it is in the input and its FullName is neither null nor white space; no longer than the input |
| Command1.GetEnvDteProjects | VSIXProject1/Command1.cs:269-286 | changes nothing; throws (host failure) exactly when no solution is open; otherwise returns `WithPath` of the top-level projects, in solution order |
| Command1.AnyNames | VSIXProject1/Command1.cs:253-263 | true exactly when some reference has the name as Identity or as Name |
| Command1.HasReferenceTo | VSIXProject1/Command1.cs:247-267 | throws exactly for a removed project; otherwise true exactly when the project is a VSLangProj project with a reference whose Identity or Name is the project name |
| Command1.Referrers | VSIXProject1/Command1.cs:113-121 | the capture loop throws exactly when some listed handle is stale, and the exception is the host failure |
| Command1.ReferrersMembers | VSIXProject1/Command1.cs:113-121 | the captured list holds exactly the listed projects that reference the project |
| Command1.ReferrersStep | VSIXProject1/Command1.cs:115-121 | one more live project adds itself at the end of the capture exactly when it is a referrer |
| Command1.FirstNamed | VSIXProject1/Command1.cs:198-207 | the first top-level node whose Name is the folder name; None when there is none |
| Command1.GetSolutionSubFolder | VSIXProject1/Command1.cs:192-210 | new state and result as `SubFolderSpec`: the first top-level node of that name, or a new solution folder |
| Command1.AddProjectToSolutionFolder | VSIXProject1/Command1.cs:160-190 | new state and result as `MoveSpec`, for every way the steps can fail, including a folder node whose Object is null |
| Command1.AddProjectReference | VSIXProject1/Command1.cs:135-158 | new state and outcome as `AddProjectReferenceSpec` |
| Command1.SafeMoveProjectToSolutionFolder | VSIXProject1/Command1.cs:111-133 | new state and outcome as `SafeMoveSpec`: capture on the solution as it was, move, rebind only after a successful move |
| Command1.Execute | VSIXProject1/Command1.cs:91-109 | new state and outcome as `ExecuteSpec`: the listing's exception when no solution is open, else SafeMove on every listed project of that name, until an exception |
| Command1.ParseReferenceCulture | VSIXProject1/Command1.cs:241-244 | never empty; the reference's culture when it has one, and "neutral" when it has none |
| Command1.Descriptor | VSIXProject1/Command1.cs:226-233 | a reference that is not strong-named is described by its Path (the strong-name format is read back by `StrongDescriptorRoundTrip`) |
| Command1.DescriptorMapSucceeds | VSIXProject1/Command1.cs:216-236 | the dictionary fill succeeds exactly when the Identities are pairwise distinct, and otherwise throws the duplicate-key exception |
| Command1.DescriptorMapEntries | VSIXProject1/Command1.cs:220-236 | a successful fill has exactly the Identities as keys, each mapped to its reference's descriptor |
| Command1.GetProjectReferences | VSIXProject1/Command1.cs:212-245 | changes nothing and returns `ProjectReferencesSpec`: throws for a removed project, empty for a non-VSLangProj project, else the fill |
| Command1Properties.WithPathAppend | VSIXProject1/Command1.cs:275-283 | listing distributes over concatenation, so relative order is kept |
| Command1Properties.WithPathSingle | VSIXProject1/Command1.cs:279-282 | one node is listed exactly when it has a path |
| Command1Properties.ReferrersParts | VSIXProject1/Command1.cs:115-121 | a capture over `a + b` that succeeds also succeeds over `a` and over `b` |
| Command1Properties.ReferrersAppendLast | VSIXProject1/Command1.cs:115-121 | the concatenation law survives one more node |
| Command1Properties.ReferrersAppend | VSIXProject1/Command1.cs:113-121 | the capture distributes over concatenation: referrers keep their order |
| Command1Properties.SafeMoveRebindsCapture | VSIXProject1/Command1.cs:113-131 | after a successful move, the rebind works on exactly the list captured before the move |
| Command1Properties.SubFolderFindOrCreate | VSIXProject1/Command1.cs:196-209 | the first top-level node of that name, whatever its kind, with nothing changed; else a fresh folder appended to the top level; else the exception |
| Command1Properties.SubFolderIdempotent | VSIXProject1/Command1.cs:192-210 | resolving the folder name a second time gives the same node and changes nothing |
| Command1Properties.SubFolderGrows | VSIXProject1/Command1.cs:209 | the folder lookup keeps every node and only adds fresh ones |
| Command1Properties.MoveWithoutSolution | VSIXProject1/Command1.cs:165-170 | with no solution the move gives null and changes nothing |
| Command1Properties.ReloadAddsNoReference | VSIXProject1/Command1.cs:180-182 | removing and re-loading the project adds no reference to any node that exists throughout |
| Command1Properties.KeepThenAddNoReference | VSIXProject1/Command1.cs:174-182 | the folder lookup followed by the reload adds no reference |
| Command1Properties.MoveAddsNoReference | VSIXProject1/Command1.cs:160-190 | the move keeps the host well formed and adds no reference to any node |
| Command1Properties.ReloadSucceeded | VSIXProject1/Command1.cs:178-183 | after a successful reload the old node is gone, the new node is fresh, is loaded from the file, and is the folder's last child; the folder is unchanged |
| Command1Properties.MoveSucceeded | VSIXProject1/Command1.cs:160-190 | after a successful move the old node is gone, and a fresh node loaded from the old FullName is the last child of a top-level node with the folder's name |
| Command1Properties.MoveDetachesOnFailedReload | VSIXProject1/Command1.cs:180-188 | when the removal works but loading the file throws (AddFromFile refused, or the file not there), the move gives null; the project is out of the solution and no reference to it remains |
| Command1Properties.MoveOntoNonFolder | VSIXProject1/Command1.cs:176-188 | a top-level node of that name whose Object is neither a solution folder nor null makes the cast throw: null, and nothing has changed |
| Command1Properties.MoveOntoNullObject | VSIXProject1/Command1.cs:176-188 | a top-level node of that name whose Object is null passes the cast: the project is removed, the call on the null folder throws, and the move gives null with the state exactly that of the removal |
| Command1Properties.NoRebindAfterFailedMove | VSIXProject1/Command1.cs:123-132 | when the move gives null no reference is added anywhere; SafeMove throws only if the capture did |
| Command1Properties.CountIdentityAppend | VSIXProject1/Command1.cs:156 | appending one reference adds one to the count of its Identity |
| Command1Properties.CountIdentityFind | VSIXProject1/Command1.cs:143 | Find reports nothing exactly when no reference has that Identity |
| Command1Properties.AddProjectReferenceCases | VSIXProject1/Command1.cs:135-158 | holder removed: throws. Not VSLangProj: nothing happens. Find reports a reference: "Reference already exists.", nothing added. Otherwise exactly one reference is appended to the holder and nothing else changes |
| Command1Properties.AddProjectReferenceWhenFindThrows | VSIXProject1/Command1.cs:141-148 | when Find throws, the exception is swallowed and `AddProject` runs |
| Command1Properties.AddProjectReferenceNeverDuplicates | VSIXProject1/Command1.cs:143-156 | with a working Find it throws exactly when a reference with the moved project's name as Identity exists; on success there is exactly one such reference |
| Command1Properties.AddProjectReferenceShape | VSIXProject1/Command1.cs:138-157 | re-attaching changes only the holder, and only its references |
| Command1Properties.RebindShape | VSIXProject1/Command1.cs:128-131 | the rebind loop changes only the holders, and only their references |
| Command1Properties.RebindStopsAtFirstFailure | VSIXProject1/Command1.cs:128-131 | an exception at holder k ends the loop: holders before k were processed, holder k left no trace, later holders were not touched |
| Command1Properties.RebindKeepsBound | VSIXProject1/Command1.cs:128-131 | a holder that already has a reference with that Identity is left as it is by a loop that ends normally |
| Command1Properties.RebindBindsEveryHolder | VSIXProject1/Command1.cs:128-131 | a loop that ends normally leaves each VSLangProj holder with exactly one reference with the moved project's name as Identity |
| Command1Properties.SafeMoveRebindsReferrers | VSIXProject1/Command1.cs:111-133 | after a SafeMove that ends normally with a successful move, every captured VSLangProj referrer holds exactly one such reference |
| Command1Properties.ExecuteLoopSkips | VSIXProject1/Command1.cs:98-108 | projects whose Name differs are skipped without any change |
| Command1Properties.ExecuteWithoutTarget | VSIXProject1/Command1.cs:95-108 | with no listed project of that name the command changes nothing, and ends normally exactly when a solution is open |
| Command1Properties.ExecuteWithoutSolution | VSIXProject1/Command1.cs:273-275 | with no solution open, listing the projects throws: the command changes nothing and ends with that exception |
| Command1Properties.CultureWithoutComma | VSIXProject1/Command1.cs:243 | the culture written into a descriptor has a comma only when the reference's culture does |
| Command1Properties.StrongDescriptorShape | VSIXProject1/Command1.cs:228 | the strong-name descriptor is the four fields joined by commas |
| Command1Properties.StrongDescriptorSplit | VSIXProject1/Command1.cs:228 | a descriptor of comma-free fields splits into exactly those four fields |
| Command1Properties.StrongDescriptorRoundTrip | VSIXProject1/Command1.cs:226-233 | reading a strong-name descriptor back gives Identity, Version, the culture ("neutral" when empty) and PublicKeyToken |
| Command1Properties.StrongDescriptorDetermines | VSIXProject1/Command1.cs:226-235 | two such references with the same descriptor agree on all four fields |
| Command1Scenarios.BeforeListing | VSIXProject1/Command1.cs:269-286 | in the sample solution all three projects are listed |
| Command1Scenarios.BeforeReferrers | VSIXProject1/Command1.cs:113-121 | A and B, not L, are captured as referrers of L |
| Command1Scenarios.BeforeFolder | VSIXProject1/Command1.cs:192-210 | with no "Libs" node, the folder is created as the next handle |
| Command1Scenarios.RemoveLibraryNodes | VSIXProject1/Command1.cs:180 | removing L strips exactly the project references to L |
| Command1Scenarios.RemoveLibraryFolders | VSIXProject1/Command1.cs:180 | removing L leaves the new folder empty |
| Command1Scenarios.RemoveLibrary | VSIXProject1/Command1.cs:180 | the whole removal of L, value by value |
| Command1Scenarios.ReloadLibrary | VSIXProject1/Command1.cs:182 | L's file loads as handle 4 inside "Libs" |
| Command1Scenarios.RemoveReloadLibrary | VSIXProject1/Command1.cs:180-182 | removal and reload together |
| Command1Scenarios.MoveLibrary | VSIXProject1/Command1.cs:160-190 | the move of L gives handle 4 |
| Command1Scenarios.ExecuteMovesLibrary | VSIXProject1/Command1.cs:91-133 | the command moves L once and then runs the rebind over A and B |
| Command1Scenarios.MoveLibraryIntoNewFolder | VSIXProject1/Command1.cs:91-133 | A and B both hold project references to L: the command ends normally, with "Libs" created, L inside it, and A and B each holding one reference to the new L |
| Command1Scenarios.StaleReferenceStopsTheRebind | VSIXProject1/Command1.cs:91-158 | A's reference to L is a file reference, so it survives the removal. Rebinding A throws "Reference already exists.", and B is left without any reference to L |

## Left out

- Command registration, the singleton `Instance`, `InitializeAsync`, the
  menu service and the UI-thread checks (`ThrowIfNotOnUIThread`). They are
  host plumbing with no effect on the moved data.
- The COM objects themselves. Only the properties and calls the command
  uses are modelled.
- Loading a project file is represented by `Environment.files`, which maps
  a path to the Name and kind of project that file loads as.
- Why the host might throw is not modelled. `Environment.refuses` only
  states which kinds of call do throw.
- Host failures are chosen per kind of call for the whole run, not per
  invocation or per argument. The model cannot express a run where
  `References.AddProject` works for one holder and throws for the next
  (`Command1.cs:130` and `Command1.cs:156`), or where the first
  `Solution.Remove` works and a later one throws.
- Command1.Execute: the project name "ClassLibrary1" and the folder name
  "Libs", hard-coded in the source, are parameters here.
- Null strings are modelled as the empty string. `IsNullOrEmpty`,
  `IsNullOrWhiteSpace` and string interpolation treat null and "" alike.
  - Command1.GetProjectReferences: a reference with a null Identity is
    therefore a "" key here. The source's `Dictionary.Add` would throw
    `ArgumentNullException` for it.
- `References.Find` is modelled as a search by Identity. The host's own
  lookup rules are not part of this model.
- EnvDte.ProjectReference: the reference `AddProject` creates is modelled
  with the project's Name as both its Identity and its Name, empty Version,
  Culture and PublicKeyToken, and the project's FullName as its Path.
  `Command1.cs` does not show what the host really builds. The duplicate
  check by `References.Find(project.Name)` at `Command1.cs:143` sees the
  created reference only under this choice of Identity, so
  `AddProjectReferenceNeverDuplicates`, `RebindBindsEveryHolder` and
  `SafeMoveRebindsReferrers` ("exactly one reference with the moved
  project's name as Identity") rest on it.
- EnvDte.RemoveSpec: the host is modelled as dropping only project
  references (`Reference.SourceProject`) to the removed project. A file or
  assembly reference that merely has the same name survives the removal,
  which is the case `StaleReferenceStopsTheRebind` shows.
- EnvDte.ProjectFile: a project loaded by `AddFromFile` is given a
  non-null Object. Only nodes already in the solution can have a null one.
- Reading `Reference.Identity` or `Reference.Name` is assumed never to
  throw. Reading any property of a removed project does throw.
- Command1.AddProjectToSolutionFolder: the branch where the folder lookup
  gives null cannot occur. `AddSolutionFolder` either returns a folder or
  throws, and the exception gives null.
- GetProjectReferences is not called anywhere in `Command1.cs`. It is
  modelled as a standalone query.
- Command1.SafeMoveProjectToSolutionFolder: the first exception of the
  rebind loop, "Reference already exists." included, ends both
  `SafeMoveProjectToSolutionFolder` and `Execute`. Failures are not
  collected per holder, and the holders after the failing one are never
  processed.
- Command1.SafeMoveProjectToSolutionFolder: the moved project is not
  excluded from its own referrers. A project that references its own name
  is captured like any other.
- Command1.HasReferenceTo: with null modelled as "", an empty project name
  matches a reference whose Identity or Name is null; C#'s `==` against a
  null string gives false there. `Command1.cs` only passes the non-empty
  constant "ClassLibrary1", so its own call never meets the difference.
- Command1.FirstNamed: likewise, an empty folder name matches a node whose
  Name is null. The source's folder name is the non-empty "Libs".
- Command1.Execute: likewise, an empty project name selects projects whose
  Name is null. The source's project name is the non-empty "ClassLibrary1".

/**
 Test folders of tp-service: a tree per project, changed only by create and move.
 The specification is on values (Folders, Step); the class below it is the in-memory
 unit of work, whose methods are proved to take the same steps.
 */
module FolderForest {
  import opened Options
  import opened Chains

  const MAX_NAME := 200
  const MAX_ROUNDS := 20
  const MAX_DEPTH := 20

  // Name handling of the source: " ".join(s.split()) and str.casefold().
  datatype Naming = Naming(squeeze: string -> string, casefold: string -> string) {
    function Key(name: string): string { squeeze(casefold(name)) }
  }

  datatype Row = Row(name: string, parent: Option<Uuid>, version: nat)

  // The store is keyed by project and folder.
  type Folders = map<(Uuid, Uuid), Row>

  datatype Command =
    | Create(allowed: bool, project: Uuid, name: string, parent: Option<Uuid>, newId: Uuid)
    | Move(allowed: bool, project: Uuid, folder: Uuid, target: Option<Uuid>)

  // ---------------------------------------------------------------------
  // The tree of one project
  // ---------------------------------------------------------------------

  ghost function Ids(fs: Folders, project: Uuid): (ids: set<Uuid>)
    ensures forall y :: y in ids <==> (project, y) in fs
  {
    set k | k in fs && k.0 == project :: k.1
  }

  /** Child to parent, within one project. */
  ghost function Parents(fs: Folders, project: Uuid): (p: map<Uuid, Uuid>)
    ensures forall y :: y in p <==> (project, y) in fs && fs[(project, y)].parent.Some?
    ensures forall y | y in p :: p[y] == fs[(project, y)].parent.value
  {
    map y | y in Ids(fs, project) && fs[(project, y)].parent.Some? :: fs[(project, y)].parent.value
  }

  ghost predicate ParentsExist(fs: Folders) {
    forall k {:trigger ParentPresent(fs, k)} | k in fs :: ParentPresent(fs, k)
  }

  ghost predicate ParentPresent(fs: Folders, k: (Uuid, Uuid))
    requires k in fs
  {
    fs[k].parent.Some? ==> (k.0, fs[k].parent.value) in fs
  }

  ghost predicate SiblingsDistinct(fs: Folders, naming: Naming) {
    forall j, k {:trigger SameSlot(fs, naming, j, k)} | j in fs && k in fs && SameSlot(fs, naming, j, k) :: j == k
  }

  // Two rows that claim the same normalized name under the same parent.
  ghost predicate SameSlot(fs: Folders, naming: Naming, j: (Uuid, Uuid), k: (Uuid, Uuid))
    requires j in fs && k in fs
  {
    j.0 == k.0 && fs[j].parent == fs[k].parent && naming.Key(fs[j].name) == naming.Key(fs[k].name)
  }

  ghost predicate IsForest(fs: Folders) {
    forall project {:trigger Parents(fs, project)} :: Forest(Parents(fs, project))
  }

  /** What every reachable folder store satisfies. */
  ghost predicate WellFormed(fs: Folders, naming: Naming) {
    ParentsExist(fs) && SiblingsDistinct(fs, naming) && IsForest(fs)
  }

  /** The strict descendants of a folder. */
  ghost predicate Below(fs: Folders, project: Uuid, folder: Uuid, y: Uuid) {
    IsAncestor(Parents(fs, project), folder, y)
  }

  ghost predicate Reached(p: map<Uuid, Uuid>, x: Uuid, k: nat) {
    exists y :: Up(p, y, k) == Some(x)
  }

  /** Some folder lies k levels below the given one. */
  ghost predicate HasLevel(fs: Folders, project: Uuid, folder: Uuid, k: nat) {
    Reached(Parents(fs, project), folder, k)
  }

  ghost function Descendants(fs: Folders, project: Uuid, folder: Uuid): set<Uuid> {
    set y | y in Parents(fs, project) && Below(fs, project, folder, y)
  }

  // ---------------------------------------------------------------------
  // Commands
  // ---------------------------------------------------------------------

  predicate NameTaken(fs: Folders, naming: Naming, project: Uuid, parent: Option<Uuid>, name: string,
                      excluding: Option<Uuid>)
  {
    exists k | k in fs :: k.0 == project && Some(k.1) != excluding && fs[k].parent == parent
                          && naming.Key(fs[k].name) == naming.Key(name)
  }

  ghost function Step(fs: Folders, naming: Naming, c: Command): (Folders, Result<Uuid>) {
    match c
    case Create(allowed, project, name, parent, newId) =>
      var squeezed := naming.squeeze(name);
      if !allowed then (fs, Err("FORBIDDEN"))
      else if squeezed == "" || |squeezed| > MAX_NAME then (fs, Err("INVALID_FOLDER_NAME"))
      else if parent.Some? && (project, parent.value) !in fs then (fs, Err("RESOURCE_NOT_FOUND"))
      else if NameTaken(fs, naming, project, parent, squeezed, None) then (fs, Err("FOLDER_NAME_CONFLICT"))
      else (fs[(project, newId) := Row(squeezed, parent, 1)], Ok(newId))
    case Move(allowed, project, folder, target) =>
      var key := (project, folder);
      if !allowed then (fs, Err("FORBIDDEN"))
      else if key !in fs then (fs, Err("RESOURCE_NOT_FOUND"))
      else if target.Some? && (project, target.value) !in fs then (fs, Err("RESOURCE_NOT_FOUND"))
      else if NameTaken(fs, naming, project, target, fs[key].name, Some(folder)) then (fs, Err("FOLDER_NAME_CONFLICT"))
      else if HasLevel(fs, project, folder, MAX_ROUNDS + 1) then (fs, Err("FOLDER_DEPTH_EXCEEDED"))
      else if target.Some? && (target.value == folder || Below(fs, project, folder, target.value)) then
        (fs, Err("FOLDER_CYCLE"))
      else (fs[key := Row(fs[key].name, target, fs[key].version + 1)], Ok(folder))
  }

  // What remains of a move once the descendants are known.
  lemma MoveOutcome(fs: Folders, naming: Naming, c: Command, descendants: set<Uuid>)
    requires c.Move? && c.allowed && (c.project, c.folder) in fs
    requires c.target.Some? ==> (c.project, c.target.value) in fs
    requires !NameTaken(fs, naming, c.project, c.target, fs[(c.project, c.folder)].name, Some(c.folder))
    requires !HasLevel(fs, c.project, c.folder, MAX_ROUNDS + 1) && descendants == Descendants(fs, c.project, c.folder)
    ensures Step(fs, naming, c) ==
            if c.target.Some? && (c.target.value == c.folder || c.target.value in descendants) then (fs, Err("FOLDER_CYCLE"))
            else (fs[(c.project, c.folder) := fs[(c.project, c.folder)].(parent := c.target, version := fs[(c.project, c.folder)].version + 1)],
                  Ok(c.folder))
  {
    var p := Parents(fs, c.project);
    assert c.target.Some? && Below(fs, c.project, c.folder, c.target.value) ==> c.target.value in p;
  }

  // A new folder's identifier is not in the store yet.
  ghost predicate Fresh(fs: Folders, c: Command) {
    c.Create? ==> forall k | k in fs :: k.1 != c.newId
  }

  ghost predicate FreshRun(fs: Folders, naming: Naming, cs: seq<Command>)
    decreases |cs|
  {
    cs == [] || (Fresh(fs, cs[0]) && FreshRun(Step(fs, naming, cs[0]).0, naming, cs[1..]))
  }

  ghost function Run(fs: Folders, naming: Naming, cs: seq<Command>): Folders
    decreases |cs|
  {
    if cs == [] then fs else Run(Step(fs, naming, cs[0]).0, naming, cs[1..])
  }

  lemma OtherProject(fs: Folders, key: (Uuid, Uuid), row: Row, project: Uuid)
    requires project != key.0
    ensures Parents(fs[key := row], project) == Parents(fs, project)
  {
  }

  /** What writing one row does to the tree of its project. */
  lemma WriteRow(fs: Folders, project: Uuid, y: Uuid, row: Row)
    ensures Parents(fs[(project, y) := row], project) ==
            if row.parent.Some? then Parents(fs, project)[y := row.parent.value] else Parents(fs, project) - {y}
  {
  }

  /** Writing a row keeps all trees when the folder is not placed below itself. */
  lemma WriteKeepsForest(fs: Folders, project: Uuid, y: Uuid, row: Row)
    requires IsForest(fs)
    requires row.parent.Some? ==> row.parent.value != y && !Below(fs, project, y, row.parent.value)
    ensures IsForest(fs[(project, y) := row])
  {
    forall other {:trigger Parents(fs[(project, y) := row], other)}
      ensures Forest(Parents(fs[(project, y) := row], other))
    {
      if other != project {
        OtherProject(fs, (project, y), row, other);
      } else {
        WriteRow(fs, project, y, row);
        if row.parent.Some? {
          RelinkIff(Parents(fs, project), y, row.parent.value);
        } else {
          DetachKeepsForest(Parents(fs, project), y);
        }
      }
    }
  }

  /** Only a folder that is in the store can have something below it. */
  lemma AncestorInStore(fs: Folders, project: Uuid, y: Uuid, z: Uuid)
    requires ParentsExist(fs) && Below(fs, project, y, z)
    ensures (project, y) in fs
  {
    var p := Parents(fs, project);
    var k: nat :| k > 0 && Up(p, z, k) == Some(y);
    UpPrefix(p, z, k - 1, k);
    UpSucc(p, z, k - 1);
    assert ParentPresent(fs, (project, Up(p, z, k - 1).value));
  }

  lemma StepKeepsParents(fs: Folders, naming: Naming, c: Command)
    requires ParentsExist(fs)
    ensures ParentsExist(Step(fs, naming, c).0)
  {
    var out := Step(fs, naming, c).0;
    forall k | k in out
      ensures ParentPresent(out, k)
    {
      if k in fs {
        assert ParentPresent(fs, k);
      }
    }
  }

  lemma StepKeepsSiblings(fs: Folders, naming: Naming, c: Command)
    requires SiblingsDistinct(fs, naming) && Fresh(fs, c)
    ensures SiblingsDistinct(Step(fs, naming, c).0, naming)
  {
    var out := Step(fs, naming, c).0;
    forall j, k | j in out && k in out && SameSlot(out, naming, j, k)
      ensures j == k
    {
      if j in fs && k in fs {
        assert SameSlot(fs, naming, j, k) <==> SameSlot(fs, naming, k, j);
      }
    }
  }

  lemma StepKeepsForest(fs: Folders, naming: Naming, c: Command)
    requires ParentsExist(fs) && IsForest(fs) && Fresh(fs, c)
    ensures IsForest(Step(fs, naming, c).0)
  {
    if Step(fs, naming, c).1.Ok? {
      match c
      case Create(_, project, _, parent, newId) =>
        if parent.Some? && Below(fs, project, newId, parent.value) {
          AncestorInStore(fs, project, newId, parent.value);
        }
        WriteKeepsForest(fs, project, newId, Row(naming.squeeze(c.name), parent, 1));
      case Move(_, project, folder, target) =>
        WriteKeepsForest(fs, project, folder, Row(fs[(project, folder)].name, target, fs[(project, folder)].version + 1));
    }
  }

  /** Every create and every move, accepted or refused, keeps a well-formed forest. */
  lemma StepKeepsWellFormed(fs: Folders, naming: Naming, c: Command)
    requires WellFormed(fs, naming) && Fresh(fs, c)
    ensures WellFormed(Step(fs, naming, c).0, naming)
  {
    StepKeepsParents(fs, naming, c);
    StepKeepsSiblings(fs, naming, c);
    StepKeepsForest(fs, naming, c);
  }

  /** Over every run from the empty store: forest, existing parents, distinct sibling names. */
  lemma {:induction false} RunKeepsWellFormed(fs: Folders, naming: Naming, cs: seq<Command>)
    requires WellFormed(fs, naming) && FreshRun(fs, naming, cs)
    ensures WellFormed(Run(fs, naming, cs), naming)
    decreases |cs|
  {
    if cs != [] {
      StepKeepsWellFormed(fs, naming, cs[0]);
      RunKeepsWellFormed(Step(fs, naming, cs[0]).0, naming, cs[1..]);
    }
  }

  lemma ReachableIsWellFormed(naming: Naming, cs: seq<Command>)
    requires FreshRun(map[], naming, cs)
    ensures WellFormed(Run(map[], naming, cs), naming)
    ensures forall project, x | x in Parents(Run(map[], naming, cs), project) ::
              !IsAncestor(Parents(Run(map[], naming, cs), project), x, x)
  {
    forall project
      ensures Forest(Parents(map[], project))
    {
      assert Parents(map[], project) == map[];
    }
    RunKeepsWellFormed(map[], naming, cs);
    forall project
      ensures forall x | x in Parents(Run(map[], naming, cs), project) ::
                !IsAncestor(Parents(Run(map[], naming, cs), project), x, x)
    {
      ForestIffNoCycle(Parents(Run(map[], naming, cs), project));
    }
  }

  /** The move guard refuses FOLDER_CYCLE exactly for the moves that would make a cycle. */
  lemma CycleGuardIsExact(fs: Folders, naming: Naming, project: Uuid, folder: Uuid, target: Uuid)
    requires WellFormed(fs, naming)
    requires (project, folder) in fs && (project, target) in fs
    requires !NameTaken(fs, naming, project, Some(target), fs[(project, folder)].name, Some(folder))
    requires !HasLevel(fs, project, folder, MAX_ROUNDS + 1)
    ensures Step(fs, naming, Move(true, project, folder, Some(target))).1 == Err("FOLDER_CYCLE")
            <==> !IsForest(fs[(project, folder) := fs[(project, folder)].(parent := Some(target))])
  {
    var row := fs[(project, folder)].(parent := Some(target));
    WriteRow(fs, project, folder, row);
    RelinkIff(Parents(fs, project), folder, target);
    if !Below(fs, project, folder, target) && target != folder {
      WriteKeepsForest(fs, project, folder, row);
    }
  }

  // ---------------------------------------------------------------------
  // What a create and a move do
  // ---------------------------------------------------------------------

  // Nothing else in the place has the name, letter case and spacing aside.
  ghost predicate NameFree(fs: Folders, naming: Naming, project: Uuid, x: Uuid, parent: Option<Uuid>, name: string) {
    forall k {:trigger fs[k]} | k in fs && k.0 == project && k.1 != x && fs[k].parent == parent ::
      naming.squeeze(naming.casefold(fs[k].name)) != naming.squeeze(naming.casefold(name))
  }

  lemma SiblingsAfter(fs: Folders, naming: Naming, project: Uuid, x: Uuid, row: Row)
    requires SiblingsDistinct(fs, naming)
    ensures SiblingsDistinct(fs[(project, x) := row], naming) <==> NameFree(fs, naming, project, x, row.parent, row.name)
  {
    var out, key := fs[(project, x) := row], (project, x);
    if NameFree(fs, naming, project, x, row.parent, row.name) {
      forall j, k | j in out && k in out && SameSlot(out, naming, j, k)
        ensures j == k
      {
        if j != key && k != key {
          assert SameSlot(fs, naming, j, k);
        }
      }
    }
    if SiblingsDistinct(out, naming) {
      forall k | k in fs && k.0 == project && k.1 != x && fs[k].parent == row.parent
        ensures naming.squeeze(naming.casefold(fs[k].name)) != naming.squeeze(naming.casefold(row.name))
      {
        assert SameSlot(out, naming, k, key) ==> k == key;
      }
    }
  }

  lemma ForestAfter(fs: Folders, project: Uuid, x: Uuid, row: Row)
    requires IsForest(fs)
    ensures IsForest(fs[(project, x) := row]) <==>
            (row.parent.Some? ==> row.parent.value != x && !Below(fs, project, x, row.parent.value))
  {
    if row.parent.Some? {
      WriteRow(fs, project, x, row);
      RelinkIff(Parents(fs, project), x, row.parent.value);
      assert IsForest(fs[(project, x) := row]) ==> Forest(Parents(fs[(project, x) := row], project));
    }
    if row.parent.Some? ==> row.parent.value != x && !Below(fs, project, x, row.parent.value) {
      WriteKeepsForest(fs, project, x, row);
    }
  }

  lemma ParentsAfter(fs: Folders, project: Uuid, x: Uuid, row: Row)
    requires ParentsExist(fs)
    ensures ParentsExist(fs[(project, x) := row]) <==>
            (row.parent.Some? ==> row.parent.value == x || (project, row.parent.value) in fs)
  {
    var out := fs[(project, x) := row];
    forall k | k in fs && k != (project, x)
      ensures ParentPresent(out, k)
    {
      assert ParentPresent(fs, k);
    }
    assert ParentPresent(out, (project, x)) <==> (row.parent.Some? ==> row.parent.value == x || (project, row.parent.value) in fs);
  }

  /** Writing a row leaves a well-formed store exactly under the conditions that the service checks. */
  lemma PlacementIff(fs: Folders, naming: Naming, project: Uuid, x: Uuid, row: Row)
    requires WellFormed(fs, naming)
    ensures WellFormed(fs[(project, x) := row], naming) <==>
            && NameFree(fs, naming, project, x, row.parent, row.name)
            && (row.parent.Some? ==> (project, row.parent.value) in fs && row.parent.value != x
                                     && !Below(fs, project, x, row.parent.value))
  {
    ParentsAfter(fs, project, x, row);
    SiblingsAfter(fs, naming, project, x, row);
    ForestAfter(fs, project, x, row);
  }

  /**
   A create is accepted exactly if the squeezed name is neither empty nor too long and the store with the new folder
   in it is well formed; that store is the result.
   */
  lemma CreateIff(fs: Folders, naming: Naming, c: Command)
    requires WellFormed(fs, naming) && c.Create? && Fresh(fs, c)
    ensures var name := naming.squeeze(c.name);
            var after := fs[(c.project, c.newId) := Row(name, c.parent, 1)];
            && (Step(fs, naming, c).1.Ok? <==> c.allowed && 1 <= |name| <= 200 && WellFormed(after, naming))
            && (if Step(fs, naming, c).1.Ok? then Step(fs, naming, c) == (after, Ok(c.newId)) else Step(fs, naming, c).0 == fs)
  {
    PlacementIff(fs, naming, c.project, c.newId, Row(naming.squeeze(c.name), c.parent, 1));
    NothingBelowNew(fs, c);
    assert NameTaken(fs, naming, c.project, c.parent, naming.squeeze(c.name), None)
           <==> !NameFree(fs, naming, c.project, c.newId, c.parent, naming.squeeze(c.name));
  }

  lemma NothingBelowNew(fs: Folders, c: Command)
    requires ParentsExist(fs) && c.Create? && Fresh(fs, c)
    ensures c.parent.Some? ==> !Below(fs, c.project, c.newId, c.parent.value)
  {
    if c.parent.Some? && Below(fs, c.project, c.newId, c.parent.value) {
      AncestorInStore(fs, c.project, c.newId, c.parent.value);
    }
  }

  /**
   A move is accepted exactly if the folder is there, at most twenty levels hang below it, and the store with the
   folder in its new place is well formed; that store is the result.
   */
  lemma MoveIff(fs: Folders, naming: Naming, c: Command)
    requires WellFormed(fs, naming) && c.Move?
    ensures var key := (c.project, c.folder);
            if key !in fs then Step(fs, naming, c).1.Err? && Step(fs, naming, c).0 == fs
            else
              var after := fs[key := Row(fs[key].name, c.target, fs[key].version + 1)];
              && (Step(fs, naming, c).1.Ok? <==>
                    c.allowed && !HasLevel(fs, c.project, c.folder, 21) && WellFormed(after, naming))
              && (if Step(fs, naming, c).1.Ok? then Step(fs, naming, c) == (after, Ok(c.folder)) else Step(fs, naming, c).0 == fs)
  {
    var key := (c.project, c.folder);
    if key in fs {
      PlacementIff(fs, naming, c.project, c.folder, Row(fs[key].name, c.target, fs[key].version + 1));
      assert NameTaken(fs, naming, c.project, c.target, fs[key].name, Some(c.folder))
             <==> !NameFree(fs, naming, c.project, c.folder, c.target, fs[key].name);
    }
  }

  /** Under the other guards a move is refused for depth exactly when the moved subtree is too high. */
  lemma DepthGuardIff(fs: Folders, naming: Naming, c: Command)
    requires c.Move? && c.allowed && (c.project, c.folder) in fs && (c.target.Some? ==> (c.project, c.target.value) in fs)
    requires !NameTaken(fs, naming, c.project, c.target, fs[(c.project, c.folder)].name, Some(c.folder))
    ensures Step(fs, naming, c).1 == Err("FOLDER_DEPTH_EXCEEDED") <==> HasLevel(fs, c.project, c.folder, 21)
  {
  }

  /** A refusal names the first check that failed. */
  lemma RefusalSaysWhy(fs: Folders, naming: Naming, c: Command)
    requires WellFormed(fs, naming) && Fresh(fs, c) && Step(fs, naming, c).1.Err?
    ensures var code := Step(fs, naming, c).1.code;
            var parent := if c.Create? then c.parent else c.target;
            var name := if c.Create? then naming.squeeze(c.name)
                        else if (c.project, c.folder) in fs then fs[(c.project, c.folder)].name else "";
            if !c.allowed then code == "FORBIDDEN"
            else if c.Create? && (|name| < 1 || |name| > 200) then code == "INVALID_FOLDER_NAME"
            else if (c.Move? && (c.project, c.folder) !in fs) || (parent.Some? && (c.project, parent.value) !in fs) then
              code == "RESOURCE_NOT_FOUND"
            else if !NameFree(fs, naming, c.project, if c.Create? then c.newId else c.folder, parent, name) then
              code == "FOLDER_NAME_CONFLICT"
            else if HasLevel(fs, c.project, c.folder, 21) then code == "FOLDER_DEPTH_EXCEEDED"
            else code == "FOLDER_CYCLE"
  {
    if c.Create? {
      assert NameTaken(fs, naming, c.project, c.parent, naming.squeeze(c.name), None)
             <==> !NameFree(fs, naming, c.project, c.newId, c.parent, naming.squeeze(c.name));
    } else if (c.project, c.folder) in fs {
      var name := fs[(c.project, c.folder)].name;
      assert NameTaken(fs, naming, c.project, c.target, name, Some(c.folder))
             <==> !NameFree(fs, naming, c.project, c.folder, c.target, name);
    }
  }

  // ---------------------------------------------------------------------
  // Levels below a folder
  // ---------------------------------------------------------------------

  /** The folders exactly k levels below x. */
  ghost function Level(p: map<Uuid, Uuid>, x: Uuid, k: nat): set<Uuid> {
    if k == 0 then {x} else set y | y in p && Up(p, y, k) == Some(x)
  }

  lemma NextLevel(p: map<Uuid, Uuid>, x: Uuid, k: nat)
    ensures Level(p, x, k + 1) == set y | y in p && p[y] in Level(p, x, k)
  {
    forall y | y in p
      ensures Up(p, y, k + 1) == Some(x) <==> p[y] in Level(p, x, k)
    {
      assert Up(p, y, k + 1) == Up(p, p[y], k);
      if k > 0 && Up(p, p[y], k) == Some(x) {
        assert p[y] in p;
      }
    }
  }

  /** Below a level that is reached, all levels nearer to x are reached too. */
  lemma LevelsNest(p: map<Uuid, Uuid>, x: Uuid, k: nat, j: nat, y: Uuid)
    requires 0 < k <= j && Up(p, y, j) == Some(x)
    ensures Level(p, x, k) != {}
  {
    UpPrefix(p, y, j - k, j);
    UpAdd(p, y, j - k, k);
    assert (j - k) + k == j;
    assert Up(p, y, j - k).value in Level(p, x, k);
  }

  ghost predicate Within(p: map<Uuid, Uuid>, x: Uuid, k: nat, y: Uuid) {
    exists j: nat :: 0 < j <= k && Up(p, y, j) == Some(x)
  }

  /** What the first k rounds collect. */
  ghost function Found(p: map<Uuid, Uuid>, x: Uuid, k: nat): set<Uuid> {
    set y | y in p && Within(p, x, k, y)
  }

  /** One round adds exactly the next level, which no earlier round has seen. */
  lemma NextFound(p: map<Uuid, Uuid>, x: Uuid, k: nat)
    requires Forest(p)
    ensures Level(p, x, k + 1) !! Found(p, x, k)
    ensures Found(p, x, k + 1) == Found(p, x, k) + Level(p, x, k + 1)
  {
    forall y | y in Level(p, x, k + 1)
      ensures !Within(p, x, k, y)
    {
      if Within(p, x, k, y) {
        var j: nat :| 0 < j <= k && Up(p, y, j) == Some(x);
        EndsAll(p, y);
        var n: nat :| Ends(p, y, n);
        UniqueLevel(p, y, n, j, k + 1);
      }
    }
  }

  lemma LevelIff(p: map<Uuid, Uuid>, x: Uuid, k: nat)
    requires k > 0
    ensures Level(p, x, k) != {} <==> Reached(p, x, k)
  {
    if Reached(p, x, k) {
      var y :| Up(p, y, k) == Some(x);
      LevelsNest(p, x, k, k, y);
    }
    if Level(p, x, k) != {} {
      var y :| y in Level(p, x, k);
      assert Up(p, y, k) == Some(x);
    }
  }

  // What a round finds, and what it means to find nothing.
  lemma RoundFinds(p: map<Uuid, Uuid>, x: Uuid, k: nat, children: set<Uuid>)
    requires Forest(p) && k < MAX_ROUNDS
    requires children == (set y | y in p && p[y] in Level(p, x, k)) - Found(p, x, k)
    ensures children == Level(p, x, k + 1) && Found(p, x, k + 1) == Found(p, x, k) + children
    ensures children == {} ==>
              Found(p, x, k) == (set y | y in p && IsAncestor(p, x, y)) && !Reached(p, x, MAX_ROUNDS + 1)
  {
    NextLevel(p, x, k);
    NextFound(p, x, k);
    if children == {} {
      NothingDeeper(p, x, k + 1);
    }
  }

  // What is below the last round.
  lemma LastRound(p: map<Uuid, Uuid>, x: Uuid, below: set<Uuid>)
    requires below == set y | y in p && p[y] in Level(p, x, MAX_ROUNDS)
    ensures below != {} <==> Reached(p, x, MAX_ROUNDS + 1)
    ensures below == {} ==> Found(p, x, MAX_ROUNDS) == set y | y in p && IsAncestor(p, x, y)
  {
    NextLevel(p, x, MAX_ROUNDS);
    LevelIff(p, x, MAX_ROUNDS + 1);
    if below == {} {
      NothingDeeper(p, x, MAX_ROUNDS + 1);
    }
  }

  /** Once a level is empty, the folders found so far are all the descendants. */
  lemma NothingDeeper(p: map<Uuid, Uuid>, x: Uuid, k: nat)
    requires 0 < k <= MAX_ROUNDS + 1 && Level(p, x, k) == {}
    ensures Found(p, x, k - 1) == set y | y in p && IsAncestor(p, x, y)
    ensures !Reached(p, x, MAX_ROUNDS + 1)
  {
    forall y, j: nat | j >= k && Up(p, y, j) == Some(x)
      ensures false
    {
      LevelsNest(p, x, k, j, y);
    }
  }

  // ---------------------------------------------------------------------
  // Depth: not limited in memory, checked by the table
  // ---------------------------------------------------------------------

  /** How many ancestors a folder has. */
  ghost function DepthOf(fs: Folders, project: Uuid, y: Uuid): nat
    requires IsForest(fs)
  {
    Depth(Parents(fs, project), y)
  }

  // Folders 0, 1, .., n-1, each in the one before it.
  function Stack(project: Uuid, name: string, n: nat): Folders {
    if n == 0 then map[]
    else Stack(project, name, n - 1)[(project, n - 1) := Row(name, if n == 1 then None else Some(n - 2), 1)]
  }

  lemma {:induction false} StackAt(project: Uuid, name: string, n: nat, k: (Uuid, Uuid))
    ensures k in Stack(project, name, n) <==> k.0 == project && k.1 < n
    ensures k in Stack(project, name, n) ==>
              Stack(project, name, n)[k] == Row(name, if k.1 == 0 then None else Some(k.1 - 1), 1)
  {
    if n > 0 {
      StackAt(project, name, n - 1, k);
    }
  }

  function Stacking(project: Uuid, name: string, from: nat, n: nat): seq<Command>
    requires from <= n
    decreases n - from
  {
    if from == n then []
    else [Create(true, project, name, if from == 0 then None else Some(from - 1), from)] + Stacking(project, name, from + 1, n)
  }

  ghost predicate AllAccepted(fs: Folders, naming: Naming, cs: seq<Command>)
    decreases |cs|
  {
    cs == [] || (Step(fs, naming, cs[0]).1.Ok? && AllAccepted(Step(fs, naming, cs[0]).0, naming, cs[1..]))
  }

  predicate GoodName(naming: Naming, name: string) { 0 < |naming.squeeze(name)| <= MAX_NAME }

  // No folder of the stack has a sibling, so every name is free below the last one.
  lemma StackNameFree(naming: Naming, project: Uuid, nm: string, n: nat, name: string)
    ensures !NameTaken(Stack(project, nm, n), naming, project, if n == 0 then None else Some(n - 1), name, None)
  {
    forall k | k in Stack(project, nm, n)
      ensures Stack(project, nm, n)[k].parent != if n == 0 then None else Some(n - 1)
    {
      StackAt(project, nm, n, k);
    }
  }

  lemma StackGrows(naming: Naming, project: Uuid, name: string, n: nat)
    requires GoodName(naming, name)
    ensures var nm := naming.squeeze(name);
            var c := Create(true, project, name, if n == 0 then None else Some(n - 1), n);
            Step(Stack(project, nm, n), naming, c) == (Stack(project, nm, n + 1), Ok(n)) && Fresh(Stack(project, nm, n), c)
  {
    var nm := naming.squeeze(name);
    StackNameFree(naming, project, nm, n, nm);
    if n > 0 {
      StackAt(project, nm, n, (project, n - 1));
    }
    forall k | k in Stack(project, nm, n)
      ensures k.1 != n
    {
      StackAt(project, nm, n, k);
    }
  }

  // The commands are all accepted, and lead from the one store to the other.
  ghost predicate Leads(fs: Folders, naming: Naming, cs: seq<Command>, out: Folders) {
    FreshRun(fs, naming, cs) && AllAccepted(fs, naming, cs) && Run(fs, naming, cs) == out
  }

  lemma OneMoreCommand(fs: Folders, naming: Naming, c: Command, cs: seq<Command>, out: Folders)
    requires Fresh(fs, c) && Step(fs, naming, c).1.Ok? && Leads(Step(fs, naming, c).0, naming, cs, out)
    ensures Leads(fs, naming, [c] + cs, out)
  {
    assert ([c] + cs)[1..] == cs;
  }

  lemma {:induction false} StackRuns(naming: Naming, project: Uuid, name: string, from: nat, n: nat)
    requires GoodName(naming, name) && from <= n
    ensures Leads(Stack(project, naming.squeeze(name), from), naming, Stacking(project, name, from, n),
                  Stack(project, naming.squeeze(name), n))
    decreases n - from
  {
    if from < n {
      var c := Create(true, project, name, if from == 0 then None else Some(from - 1), from);
      StackGrows(naming, project, name, from);
      StackRuns(naming, project, name, from + 1, n);
      OneMoreCommand(Stack(project, naming.squeeze(name), from), naming, c, Stacking(project, name, from + 1, n),
                     Stack(project, naming.squeeze(name), n));
    }
  }

  lemma StackParent(project: Uuid, name: string, n: nat, x: nat)
    requires x < n
    ensures x in Parents(Stack(project, name, n), project) <==> x > 0
    ensures x > 0 ==> Parents(Stack(project, name, n), project)[x] == x - 1
  {
    StackAt(project, name, n, (project, x));
  }

  lemma {:induction false} StackUp(project: Uuid, name: string, n: nat, x: nat, k: nat)
    requires x < n
    ensures Up(Parents(Stack(project, name, n), project), x, k) == if k <= x then Some(x - k) else None
    decreases k
  {
    StackParent(project, name, n, x);
    if k > 0 && x > 0 {
      StackUp(project, name, n, x - 1, k - 1);
    }
  }

  lemma StackDepth(project: Uuid, name: string, n: nat)
    requires IsForest(Stack(project, name, n + 1))
    ensures (project, n) in Stack(project, name, n + 1) && DepthOf(Stack(project, name, n + 1), project, n) == n
  {
    StackAt(project, name, n + 1, (project, n));
    StackUp(project, name, n + 1, n, n);
    StackUp(project, name, n + 1, n, n + 1);
    DepthIsUp(Parents(Stack(project, name, n + 1), project), n, n);
    DepthIsUp(Parents(Stack(project, name, n + 1), project), n, n + 1);
  }

  /** In memory nothing limits the depth: for every n an accepted run puts a folder below n others. */
  lemma DepthIsUnbounded(naming: Naming, project: Uuid, name: string, n: nat)
    requires GoodName(naming, name)
    ensures var cs := Stacking(project, name, 0, n + 1);
            && FreshRun(map[], naming, cs) && AllAccepted(map[], naming, cs) && IsForest(Run(map[], naming, cs))
            && (project, n) in Run(map[], naming, cs) && DepthOf(Run(map[], naming, cs), project, n) == n
  {
    StackRuns(naming, project, name, 0, n + 1);
    ReachableIsWellFormed(naming, Stacking(project, name, 0, n + 1));
    StackDepth(project, naming.squeeze(name), n);
  }

  /** What the folder table accepts: every row's depth is at most twenty. */
  ghost predicate Storable(fs: Folders) {
    IsForest(fs) && forall k {:trigger DepthOf(fs, k.0, k.1)} | k in fs :: DepthOf(fs, k.0, k.1) <= MAX_DEPTH
  }

  /** A command and its commit: what the table refuses is rolled back. */
  ghost function DbStep(fs: Folders, naming: Naming, c: Command): (Folders, Result<Uuid>) {
    var (after, r) := Step(fs, naming, c);
    if r.Err? then (fs, r) else if Storable(after) then (after, r) else (fs, Err("ck_folder_depth"))
  }

  /** The number of levels below a folder, as far as a table can hold them. */
  ghost function Height(fs: Folders, project: Uuid, folder: Uuid): nat {
    HeightUpTo(Parents(fs, project), folder, MAX_DEPTH)
  }

  ghost function HeightUpTo(p: map<Uuid, Uuid>, x: Uuid, n: nat): nat {
    if n == 0 || Reached(p, x, n) then n else HeightUpTo(p, x, n - 1)
  }

  lemma {:induction false} HeightIsReached(p: map<Uuid, Uuid>, x: Uuid, n: nat, k: nat)
    requires k <= n
    ensures Reached(p, x, k) <==> k <= HeightUpTo(p, x, n)
    ensures HeightUpTo(p, x, n) <= n
    decreases n
  {
    if n == 0 {
      assert Up(p, x, 0) == Some(x);
    } else if Reached(p, x, n) {
      var y :| Up(p, y, n) == Some(x);
      UpPrefix(p, y, n - k, n);
      UpAdd(p, y, n - k, k);
      assert (n - k) + k == n;
    } else if k < n {
      HeightIsReached(p, x, n - 1, k);
    } else {
      HeightIsReached(p, x, n - 1, 0);
    }
  }

  /** In a table no folder has a level below it that is out of reach of the height. */
  lemma LevelWithin(fs: Folders, project: Uuid, x: Uuid, y: Uuid, k: nat)
    requires Storable(fs) && Up(Parents(fs, project), y, k) == Some(x)
    ensures k <= Height(fs, project, x)
  {
    var p := Parents(fs, project);
    DepthIsUp(p, y, k);
    assert k > 0 ==> y in p;
    assert k > 0 ==> DepthOf(fs, project, y) <= MAX_DEPTH by {
      if k > 0 {
        assert (project, y) in fs;
        assert DepthOf(fs, (project, y).0, (project, y).1) <= MAX_DEPTH;
      }
    }
    HeightIsReached(p, x, MAX_DEPTH, k);
  }

  /** Over the database the traversal of a move never meets more than twenty levels. */
  lemma DepthErrorIsDead(fs: Folders, naming: Naming, c: Command)
    requires Storable(fs)
    ensures Step(fs, naming, c).1 != Err("FOLDER_DEPTH_EXCEEDED")
  {
    if c.Move? && HasLevel(fs, c.project, c.folder, MAX_ROUNDS + 1) {
      var y :| Up(Parents(fs, c.project), y, MAX_ROUNDS + 1) == Some(c.folder);
      LevelWithin(fs, c.project, c.folder, y, MAX_ROUNDS + 1);
      HeightIsReached(Parents(fs, c.project), c.folder, MAX_DEPTH, 0);
    }
  }

  // Where a command puts its folder, and how high the subtree is that it puts there.
  function PlacedId(c: Command): Uuid { if c.Create? then c.newId else c.folder }

  function PlacedUnder(c: Command): Option<Uuid> { if c.Create? then c.parent else c.target }

  /** A new depth: on the way down from the placed folder, and unchanged everywhere else. */
  lemma PlacedDepth(fs: Folders, project: Uuid, x: Uuid, row: Row, y: Uuid, k: nat)
    requires IsForest(fs) && (row.parent.Some? ==> row.parent.value != x && !Below(fs, project, x, row.parent.value))
    requires Up(Parents(fs, project), y, k) == Some(x)
    ensures IsForest(fs[(project, x) := row])
    ensures DepthOf(fs[(project, x) := row], project, y) ==
            k + if row.parent.Some? then DepthOf(fs, project, row.parent.value) + 1 else 0
  {
    WriteKeepsForest(fs, project, x, row);
    WriteRow(fs, project, x, row);
    if row.parent.Some? {
      DepthBelowMoved(Parents(fs, project), x, row.parent.value, y, k);
    } else {
      DepthBelowRoot(Parents(fs, project), x, y, k);
    }
  }

  lemma OtherDepth(fs: Folders, project: Uuid, x: Uuid, row: Row, other: Uuid, y: Uuid)
    requires IsForest(fs) && IsForest(fs[(project, x) := row])
    requires other != project || (y != x && !Below(fs, project, x, y))
    ensures DepthOf(fs[(project, x) := row], other, y) == DepthOf(fs, other, y)
  {
    if other != project {
      OtherProject(fs, (project, x), row, other);
    } else {
      DepthElsewhere(Parents(fs, project), Parents(fs[(project, x) := row], project), x, y);
    }
  }

  // The table holds the folders after a placement exactly when the lowest folder of the placed subtree fits.
  lemma PlacementFits(fs: Folders, project: Uuid, x: Uuid, row: Row)
    requires Storable(fs) && ParentsExist(fs)
    requires row.parent.Some? ==> row.parent.value != x && !Below(fs, project, x, row.parent.value)
    ensures Storable(fs[(project, x) := row]) <==>
            (row.parent.Some? ==> DepthOf(fs, project, row.parent.value) + 1 + Height(fs, project, x) <= MAX_DEPTH)
  {
    var out, p, h := fs[(project, x) := row], Parents(fs, project), Height(fs, project, x);
    WriteKeepsForest(fs, project, x, row);
    HeightIsReached(p, x, MAX_DEPTH, 0);
    HeightIsReached(p, x, MAX_DEPTH, h);
    var lowest: Uuid :| Up(p, lowest, h) == Some(x);
    PlacedDepth(fs, project, x, row, lowest, h);
    assert (project, lowest) in out by {
      assert h > 0 ==> lowest in p;
    }
    if Storable(out) {
      assert DepthOf(out, (project, lowest).0, (project, lowest).1) <= MAX_DEPTH;
    }
    if row.parent.Some? ==> DepthOf(fs, project, row.parent.value) + 1 + h <= MAX_DEPTH {
      forall k | k in out
        ensures DepthOf(out, k.0, k.1) <= MAX_DEPTH
      {
        PlacedRowFits(fs, project, x, row, k);
      }
    }
  }

  lemma PlacedRowFits(fs: Folders, project: Uuid, x: Uuid, row: Row, k: (Uuid, Uuid))
    requires Storable(fs) && IsForest(fs[(project, x) := row]) && k in fs[(project, x) := row]
    requires row.parent.Some? ==> row.parent.value != x && !Below(fs, project, x, row.parent.value)
    requires row.parent.Some? ==> DepthOf(fs, project, row.parent.value) + 1 + Height(fs, project, x) <= MAX_DEPTH
    ensures DepthOf(fs[(project, x) := row], k.0, k.1) <= MAX_DEPTH
  {
    if k == (project, x) {
      assert Up(Parents(fs, project), x, 0) == Some(x);
      PlacedDepth(fs, project, x, row, x, 0);
    } else if k.0 == project && Below(fs, project, x, k.1) {
      var j: nat :| j > 0 && Up(Parents(fs, project), k.1, j) == Some(x);
      PlacedDepth(fs, project, x, row, k.1, j);
      LevelWithin(fs, project, x, k.1, j);
      HeightIsReached(Parents(fs, project), x, MAX_DEPTH, 0);
    } else {
      OtherDepth(fs, project, x, row, k.0, k.1);
      assert DepthOf(fs, k.0, k.1) <= MAX_DEPTH;
    }
  }

  /** Nothing is below a folder that is not there yet. */
  lemma NewFolderIsFlat(fs: Folders, project: Uuid, x: Uuid)
    requires ParentsExist(fs) && (project, x) !in fs
    ensures Height(fs, project, x) == 0
  {
    var p := Parents(fs, project);
    HeightIsReached(p, x, MAX_DEPTH, 0);
    HeightIsReached(p, x, MAX_DEPTH, 1);
    if Reached(p, x, 1) {
      var y :| Up(p, y, 1) == Some(x);
      assert Below(fs, project, x, y);
      AncestorInStore(fs, project, x, y);
    }
  }

  /** Over the database a create or move is committed if and only if its whole subtree stays within twenty levels of a root. */
  lemma DbCommitsIff(fs: Folders, naming: Naming, c: Command)
    requires WellFormed(fs, naming) && Storable(fs) && Fresh(fs, c) && Step(fs, naming, c).1.Ok?
    ensures DbStep(fs, naming, c).1.Ok? <==>
            (PlacedUnder(c).Some? ==>
               DepthOf(fs, c.project, PlacedUnder(c).value) + 1 + Height(fs, c.project, PlacedId(c)) <= 20)
    ensures c.Create? ==> Height(fs, c.project, PlacedId(c)) == 0
  {
    var row := Step(fs, naming, c).0[(c.project, PlacedId(c))];
    if c.Create? {
      NewFolderIsFlat(fs, c.project, c.newId);
      if c.parent.Some? && Below(fs, c.project, c.newId, c.parent.value) {
        AncestorInStore(fs, c.project, c.newId, c.parent.value);
      }
    }
    PlacementFits(fs, c.project, PlacedId(c), row);
  }

  ghost function DbRun(fs: Folders, naming: Naming, cs: seq<Command>, n: nat): Folders
    requires n <= |cs|
    decreases n
  {
    if n == 0 then fs else DbStep(DbRun(fs, naming, cs, n - 1), naming, cs[n - 1]).0
  }

  /** Every folder that was ever committed stays within twenty levels, and no traversal is ever refused. */
  lemma {:induction false} CommittedIsStorable(naming: Naming, cs: seq<Command>, n: nat, c: Command)
    requires n <= |cs| && forall i: nat {:trigger DbRun(map[], naming, cs, i)} | i < |cs| :: Fresh(DbRun(map[], naming, cs, i), cs[i])
    ensures WellFormed(DbRun(map[], naming, cs, n), naming) && Storable(DbRun(map[], naming, cs, n))
    ensures forall k {:trigger DepthOf(DbRun(map[], naming, cs, n), k.0, k.1)} | k in DbRun(map[], naming, cs, n) ::
              DepthOf(DbRun(map[], naming, cs, n), k.0, k.1) <= 20
    ensures DbStep(DbRun(map[], naming, cs, n), naming, c).1 != Err("FOLDER_DEPTH_EXCEEDED")
    decreases n
  {
    if n == 0 {
      ReachableIsWellFormed(naming, []);
    } else {
      CommittedIsStorable(naming, cs, n - 1, cs[n - 1]);
      var fs := DbRun(map[], naming, cs, n - 1);
      assert Fresh(fs, cs[n - 1]);
      StepKeepsWellFormed(fs, naming, cs[n - 1]);
    }
    DepthErrorIsDead(DbRun(map[], naming, cs, n), naming, c);
  }

  // ---------------------------------------------------------------------
  // The unit of work
  // ---------------------------------------------------------------------

  class TestFolder {
    const id: Uuid
    const projectId: Uuid
    var name: string
    var parentId: Option<Uuid>
    var version: nat

    constructor (id: Uuid, projectId: Uuid, name: string, parentId: Option<Uuid>)
      ensures this.id == id && this.projectId == projectId
      ensures this.name == name && this.parentId == parentId && version == 1
    {
      this.id, this.projectId := id, projectId;
      this.name, this.parentId, this.version := name, parentId, 1;
    }

    /** Re-parent this folder unless the target is itself, below itself or in another project. */
    method Move(target: TestFolder?, descendants: set<Uuid>) returns (r: Result<Uuid>)
      modifies this`parentId, this`version
      ensures r == if target != null && target.projectId != projectId then Err("RESOURCE_NOT_FOUND")
                   else if target != null && (target.id == id || target.id in descendants) then Err("FOLDER_CYCLE")
                   else Ok(id)
      ensures r.Err? ==> parentId == old(parentId) && version == old(version)
      ensures r.Ok? ==> parentId == (if target == null then None else Some(target.id)) && version == old(version) + 1
    {
      if target != null && target.projectId != projectId {
        return Err("RESOURCE_NOT_FOUND");
      }
      if target != null && (target.id == id || target.id in descendants) {
        return Err("FOLDER_CYCLE");
      }
      parentId := if target == null then None else Some(target.id);
      version := version + 1;
      return Ok(id);
    }
  }

  class FolderUnitOfWork {
    const naming: Naming
    var folders: map<(Uuid, Uuid), TestFolder>

    ghost predicate Keyed()
      reads this, folders.Values
    {
      forall k | k in folders :: folders[k].projectId == k.0 && folders[k].id == k.1
    }

    ghost function View(): Folders
      reads this, folders.Values
    {
      map k | k in folders :: Row(folders[k].name, folders[k].parentId, folders[k].version)
    }

    ghost predicate Valid()
      reads this, folders.Values
    {
      Keyed() && WellFormed(View(), naming)
    }

    constructor (naming: Naming)
      ensures Valid() && View() == map[] && this.naming == naming
    {
      this.naming := naming;
      folders := map[];
      new;
      ReachableIsWellFormed(naming, []);
    }

    // The direct children of the folders in the frontier.
    function ChildrenOf(project: Uuid, frontier: set<Uuid>): (ids: set<Uuid>)
      requires Keyed()
      reads this, folders.Values
      ensures ids == set y | y in Parents(View(), project) && Parents(View(), project)[y] in frontier
    {
      var ids := set k | k in folders && k.0 == project && folders[k].parentId.Some?
                         && folders[k].parentId.value in frontier :: k.1;
      assert forall y | y in Parents(View(), project) :: (project, y) in folders;
      ids
    }

    /**
     Breadth-first over the parent relation, at most twenty rounds. It fails exactly when a
     folder lies twenty-one levels down, and otherwise finds every strict descendant.
     */
    method FolderDescendants(project: Uuid, folder: Uuid) returns (r: Result<set<Uuid>>)
      requires Valid()
      ensures r.Err? <==> HasLevel(View(), project, folder, MAX_ROUNDS + 1)
      ensures r.Err? ==> r.code == "FOLDER_DEPTH_EXCEEDED"
      ensures r.Ok? ==> r.value == Descendants(View(), project, folder)
    {
      assert Forest(Parents(View(), project));
      r := Descend(project, folder);
    }

    // The rounds, on the tree of the project.
    method Descend(project: Uuid, folder: Uuid) returns (r: Result<set<Uuid>>)
      requires Keyed() && Forest(Parents(View(), project))
      ensures r.Err? <==> Reached(Parents(View(), project), folder, MAX_ROUNDS + 1)
      ensures r.Err? ==> r.code == "FOLDER_DEPTH_EXCEEDED"
      ensures r.Ok? ==> r.value == set y | y in Parents(View(), project) && IsAncestor(Parents(View(), project), folder, y)
    {
      ghost var p := Parents(View(), project);
      var descendants: set<Uuid> := {};
      var frontier := {folder};
      for round := 0 to MAX_ROUNDS
        invariant frontier == Level(p, folder, round)
        invariant descendants == Found(p, folder, round)
      {
        var children := ChildrenOf(project, frontier) - descendants;
        RoundFinds(p, folder, round, children);
        if children == {} {
          return Ok(descendants);
        }
        descendants := descendants + children;
        frontier := children;
      }
      var below := ChildrenOf(project, frontier);
      LastRound(p, folder, below);
      if below != {} {
        return Err("FOLDER_DEPTH_EXCEEDED");
      }
      return Ok(descendants);
    }

    method CreateFolder(allowed: bool, project: Uuid, name: string, parent: Option<Uuid>, newId: Uuid)
      returns (r: Result<TestFolder>)
      requires Valid() && Fresh(View(), Create(allowed, project, name, parent, newId))
      modifies this`folders
      ensures Valid() && fresh(folders.Values - old(folders.Values))
      ensures View() == Step(old(View()), naming, Create(allowed, project, name, parent, newId)).0
      ensures var spec := Step(old(View()), naming, Create(allowed, project, name, parent, newId)).1;
              r.Ok? == spec.Ok? && (r.Ok? ==> r.value.id == spec.value) && (r.Err? ==> r.code == spec.code)
    {
      ghost var c := Create(allowed, project, name, parent, newId);
      ghost var after := Step(View(), naming, c).0;
      assert WellFormed(after, naming) by { StepKeepsWellFormed(View(), naming, c); }
      var squeezed := CreateGuards(allowed, project, name, parent, newId);
      if squeezed.Err? {
        return Err(squeezed.code);
      }
      var folder := InsertFolder(project, squeezed.value, parent, newId);
      assert View() == after;
      r := Ok(folder);
    }

    // One more object; no other row changes.
    method InsertFolder(project: Uuid, name: string, parent: Option<Uuid>, newId: Uuid) returns (folder: TestFolder)
      requires Keyed()
      modifies this`folders
      ensures Keyed() && fresh(folder) && folders == old(folders)[(project, newId) := folder]
      ensures folder.id == newId && View() == old(View())[(project, newId) := Row(name, parent, 1)]
    {
      folder := new TestFolder(newId, project, name, parent);
      folders := folders[(project, newId) := folder];
    }

    // What the service checks before it creates the folder: the first error, or the squeezed name.
    method CreateGuards(allowed: bool, project: Uuid, name: string, parent: Option<Uuid>, ghost newId: Uuid)
      returns (r: Result<string>)
      requires Valid()
      ensures r.Err? ==> Step(View(), naming, Create(allowed, project, name, parent, newId)) == (View(), Err(r.code))
      ensures r.Ok? ==> Step(View(), naming, Create(allowed, project, name, parent, newId)) ==
                        (View()[(project, newId) := Row(r.value, parent, 1)], Ok(newId))
    {
      if !allowed {
        return Err("FORBIDDEN");
      }
      var squeezed := naming.squeeze(name);
      if squeezed == "" || |squeezed| > MAX_NAME {
        return Err("INVALID_FOLDER_NAME");
      }
      if parent.Some? && (project, parent.value) !in folders {
        return Err("RESOURCE_NOT_FOUND");
      }
      var taken := NormalizedFolderNameExists(project, parent, squeezed, None);
      if taken {
        return Err("FOLDER_NAME_CONFLICT");
      }
      return Ok(squeezed);
    }

    method NormalizedFolderNameExists(project: Uuid, parent: Option<Uuid>, name: string, excluding: Option<Uuid>)
      returns (taken: bool)
      requires Valid()
      ensures taken == NameTaken(View(), naming, project, parent, name, excluding)
    {
      taken := exists k | k in folders :: k.0 == project && Some(k.1) != excluding && folders[k].parentId == parent
                                          && naming.Key(folders[k].name) == naming.Key(name);
    }

    method MoveFolder(allowed: bool, project: Uuid, folderId: Uuid, target: Option<Uuid>)
      returns (r: Result<Uuid>)
      requires Valid()
      modifies folders.Values
      ensures Valid() && folders == old(folders)
      ensures View() == Step(old(View()), naming, Move(allowed, project, folderId, target)).0
      ensures r == Step(old(View()), naming, Move(allowed, project, folderId, target)).1
      ensures allowed && (project, folderId) in folders && (target.Some? ==> (project, target.value) in folders)
              && !old(NameTaken(View(), naming, project, target, folders[(project, folderId)].name, Some(folderId))) ==>
                (r == Err("FOLDER_DEPTH_EXCEEDED") <==> HasLevel(old(View()), project, folderId, MAX_ROUNDS + 1))
    {
      ghost var c := Command.Move(allowed, project, folderId, target);
      if allowed && (project, folderId) in folders && (target.Some? ==> (project, target.value) in folders)
         && !NameTaken(View(), naming, project, target, folders[(project, folderId)].name, Some(folderId))
      {
        DepthGuardIff(View(), naming, c);
      }
      r := Relocate(allowed, project, folderId, target);
    }

    // The checks, then the move of the object.
    method Relocate(allowed: bool, project: Uuid, folderId: Uuid, target: Option<Uuid>) returns (r: Result<Uuid>)
      requires Valid()
      modifies folders.Values
      ensures Valid()
      ensures View() == Step(old(View()), naming, Move(allowed, project, folderId, target)).0
      ensures r == Step(old(View()), naming, Move(allowed, project, folderId, target)).1
    {
      ghost var c := Command.Move(allowed, project, folderId, target);
      ghost var after := Step(View(), naming, c).0;
      assert WellFormed(after, naming) by { StepKeepsWellFormed(View(), naming, c); }
      var descendants := MoveGuards(allowed, project, folderId, target);
      if descendants.Err? {
        return Err(descendants.code);
      }
      MoveOutcome(View(), naming, c, descendants.value);
      r := MoveObject(project, folderId, target, descendants.value);
      assert View() == after;
    }

    // What the service checks before it moves the object: the first error, or the descendants.
    method MoveGuards(allowed: bool, project: Uuid, folderId: Uuid, target: Option<Uuid>) returns (r: Result<set<Uuid>>)
      requires Valid()
      ensures r.Err? ==> Step(View(), naming, Move(allowed, project, folderId, target)) == (View(), Err(r.code))
      ensures r.Ok? ==> allowed && (project, folderId) in folders && (target.Some? ==> (project, target.value) in folders)
                        && !NameTaken(View(), naming, project, target, folders[(project, folderId)].name, Some(folderId))
                        && !HasLevel(View(), project, folderId, MAX_ROUNDS + 1)
                        && r.value == Descendants(View(), project, folderId)
    {
      if !allowed {
        return Err("FORBIDDEN");
      }
      if (project, folderId) !in folders {
        return Err("RESOURCE_NOT_FOUND");
      }
      if target.Some? && (project, target.value) !in folders {
        return Err("RESOURCE_NOT_FOUND");
      }
      var taken := NormalizedFolderNameExists(project, target, folders[(project, folderId)].name, Some(folderId));
      if taken {
        return Err("FOLDER_NAME_CONFLICT");
      }
      r := FolderDescendants(project, folderId);
    }

    // Move the folder's object; no other row changes.
    method MoveObject(project: Uuid, folderId: Uuid, target: Option<Uuid>, descendants: set<Uuid>) returns (r: Result<Uuid>)
      requires Keyed() && (project, folderId) in folders && (target.Some? ==> (project, target.value) in folders)
      modifies folders.Values
      ensures Keyed()
      ensures r == if target.Some? && (target.value == folderId || target.value in descendants) then Err("FOLDER_CYCLE") else Ok(folderId)
      ensures View() == if r.Err? then old(View())
                        else old(View()[(project, folderId) := View()[(project, folderId)].(parent := target, version := View()[(project, folderId)].version + 1)])
    {
      var folder := folders[(project, folderId)];
      var targetFolder: TestFolder? := if target.Some? then folders[(project, target.value)] else null;
      r := folder.Move(targetFolder, descendants);
      ghost var row := folders[(project, folderId)];
      assert r.Ok? ==> View() == old(View())[(project, folderId) := Row(row.name, row.parentId, row.version)];
    }

    /**
     The stored path and depth of a folder. The walk has no bound of its own: it ends because
     the relation is a forest, and the depth is the number of ancestors.
     */
    method PathAndDepth(project: Uuid, folderId: Uuid) returns (path: seq<Uuid>, depth: nat)
      requires Valid() && (project, folderId) in folders
      ensures |path| == depth + 1
      ensures forall k: nat | k <= depth :: Up(Parents(View(), project), folderId, k) == Some(path[depth - k])
      ensures Up(Parents(View(), project), folderId, depth + 1) == None
      ensures forall a :: a in path[..depth] <==> IsAncestor(Parents(View(), project), a, folderId)
      ensures depth == DepthOf(View(), project, folderId)
    {
      ghost var p := Parents(View(), project);
      EndsAll(p, folderId);
      ghost var n: nat :| Ends(p, folderId, n);
      var current := folders[(project, folderId)];
      depth, path := 0, [folderId];
      while current.parentId.Some? && (project, current.parentId.value) in folders
        invariant (project, current.id) in folders && folders[(project, current.id)] == current
        invariant depth <= n && |path| == depth + 1 && path[0] == current.id
        invariant forall k: nat | k <= depth :: Up(p, folderId, k) == Some(path[depth - k])
        decreases n - depth
      {
        UpSucc(p, folderId, depth);
        var parent := folders[(project, current.parentId.value)];
        depth := depth + 1;
        EndsAbove(p, folderId, n, depth);
        path := [parent.id] + path;
        current := parent;
      }
      UpSucc(p, folderId, depth);
      assert ParentPresent(View(), (project, current.id));
      PathIsAncestors(p, folderId, path, depth);
      DepthIsUp(p, folderId, depth);
      DepthIsUp(p, folderId, depth + 1);
    }

    /** Save every folder; the table refuses all of them if one is too deep. */
    method Commit() returns (ok: bool)
      requires Valid()
      ensures ok <==> Storable(View())
    {
      var todo := folders.Keys;
      while todo != {}
        invariant todo <= folders.Keys
        invariant forall k {:trigger DepthOf(View(), k.0, k.1)} | k in folders && k !in todo :: DepthOf(View(), k.0, k.1) <= MAX_DEPTH
        decreases todo
      {
        var k :| k in todo;
        var path, depth := PathAndDepth(k.0, k.1);
        if depth > MAX_DEPTH {
          assert DepthOf(View(), k.0, k.1) > MAX_DEPTH;
          return false;
        }
        todo := todo - {k};
      }
      return true;
    }

    lemma PathIsAncestors(p: map<Uuid, Uuid>, x: Uuid, path: seq<Uuid>, depth: nat)
      requires |path| == depth + 1
      requires forall k: nat | k <= depth :: Up(p, x, k) == Some(path[depth - k])
      requires Up(p, x, depth + 1) == None
      ensures forall a :: a in path[..depth] <==> IsAncestor(p, a, x)
    {
      forall a | IsAncestor(p, a, x)
        ensures a in path[..depth]
      {
        var k: nat :| k > 0 && Up(p, x, k) == Some(a);
        if k > depth {
          UpPrefix(p, x, depth + 1, k);
        }
        assert path[..depth][depth - k] == a;
      }
      forall a | a in path[..depth]
        ensures IsAncestor(p, a, x)
      {
        var i :| 0 <= i < depth && path[i] == a;
        assert Up(p, x, depth - i) == Some(path[depth - (depth - i)]);
      }
    }
  }
}

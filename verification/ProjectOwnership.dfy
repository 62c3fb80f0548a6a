/**
 Ownership of projects in project-service. Transactions copy rows one at a time and write them
 back later, each write guarded by the version it read; everything may interleave in between.
 The owner invariant does not need the database's unique index on owners; what the index refuses is stated apart.
 */
module ProjectOwnership {
  import opened Options

  datatype Role = Owner | Admin | Member | Viewer

  datatype Membership = Membership(project: Uuid, user: Uuid, role: Role, active: bool, version: nat)

  datatype Project = Project(owner: Uuid, archived: bool, version: nat)

  datatype Store = Store(members: map<Uuid, Membership>, projects: map<Uuid, Project>)

  datatype Command =
    | AddMember(project: Uuid, actor: Uuid, user: Uuid, role: Role, newId: Uuid)
    | ChangeRole(project: Uuid, actor: Uuid, membership: Uuid, role: Role, expected: nat)
    | RemoveMember(project: Uuid, actor: Uuid, membership: Uuid, expected: nat)
    | TransferOwner(project: Uuid, actor: Uuid, newOwner: Uuid)

  // A private copy of a membership row.
  datatype Copy = Copy(id: Uuid, row: Membership)

  /** A transaction and what it has read so far. */
  datatype Txn = Txn(command: Command, actor: Option<Copy>, project: Option<Project>, item: Option<Copy>)

  // ---------------------------------------------------------------------
  // Guarded writes
  // ---------------------------------------------------------------------

  /** UPDATE ... WHERE id = item and version = expected. */
  function SaveMembership(s: Store, item: Copy, expected: nat): (Store, bool) {
    if item.id in s.members && s.members[item.id].project == item.row.project
       && s.members[item.id].version == expected
    then
      var row := s.members[item.id].(role := item.row.role, active := item.row.active, version := item.row.version);
      (s.(members := s.members[item.id := row]), true)
    else (s, false)
  }

  // The rows that the one-statement owner swap matches.
  function Swapped(s: Store, project: Uuid, current: Uuid, target: Uuid, cv: nat, tv: nat): set<Uuid> {
    set id | id in {current, target} && id in s.members && s.members[id].project == project
             && ((id == current && s.members[id].version == cv) || (id == target && s.members[id].version == tv))
  }

  /** One UPDATE for both rows; it has worked when it touched two. */
  function TransferOwnerRoles(s: Store, project: Uuid, current: Uuid, target: Uuid, cv: nat, tv: nat): (Store, bool) {
    var ids := Swapped(s, project, current, target, cv, tv);
    (s.(members := map id | id in s.members ::
                     if id in ids then s.members[id].(role := if id == current then Admin else Owner,
                                                      version := s.members[id].version + 1)
                     else s.members[id]),
     |ids| == 2)
  }

  function SaveProject(s: Store, id: Uuid, project: Project, expected: nat): (Store, bool) {
    if id in s.projects && s.projects[id].version == expected then (s.(projects := s.projects[id := project]), true)
    else (s, false)
  }

  // ---------------------------------------------------------------------
  // Commands
  // ---------------------------------------------------------------------

  predicate MayManage(r: Role) { r == Owner || r == Admin }

  /** The checks of every write: an active member of a live project with a sufficient role. */
  predicate Access(t: Txn) {
    && t.actor.Some? && t.project.Some? && !t.project.value.archived
    && (if t.command.TransferOwner? then t.actor.value.row.role == Owner else MayManage(t.actor.value.row.role))
  }

  /** What the transaction writes; a refusal or a lost race rolls everything back. */
  function Commit(s: Store, t: Txn): (Store, bool) {
    if !Access(t) then (s, false)
    else
      match t.command
      case AddMember(project, _, user, role, newId) =>
        if role == Owner then (s, false)
        else if t.item.Some? then (s, true)   // already a member: nothing to do
        else (s.(members := s.members[newId := Membership(project, user, role, true, 1)]), true)
      case ChangeRole(_, _, _, role, expected) =>
        if t.item.None? || t.item.value.row.version != expected || t.item.value.row.role == Owner || role == Owner
        then (s, false)
        else
          var row := t.item.value.row;
          SaveMembership(s, Copy(t.item.value.id, row.(role := role, version := row.version + 1)), expected)
      case RemoveMember(_, _, _, expected) =>
        if t.item.None? || t.item.value.row.version != expected || t.item.value.row.role == Owner then (s, false)
        else
          var row := t.item.value.row;
          SaveMembership(s, Copy(t.item.value.id, row.(active := false, version := row.version + 1)), expected)
      case TransferOwner(project, _, _) =>
        if t.item.None? || t.item.value.row.role == Viewer then (s, false)
        else
          var current, target := t.actor.value, t.item.value;
          var (s1, swapped) :=
            TransferOwnerRoles(s, project, current.id, target.id, current.row.version, target.row.version);
          if !swapped then (s, false)
          else
            var p := t.project.value;
            var (s2, saved) :=
              SaveProject(s1, project, p.(owner := target.row.user, version := p.version + 1), p.version);
            if saved then (s2, true) else (s, false)
  }

  // ---------------------------------------------------------------------
  // Interleavings
  // ---------------------------------------------------------------------

  datatype State = State(store: Store, txns: map<nat, Txn>)

  datatype Action =
    | CreateProject(project: Uuid, membership: Uuid, owner: Uuid)
    | Archive(project: Uuid)
    | Begin(txn: nat, command: Command)
    | ReadActor(txn: nat, row: Uuid)
    | ReadProject(txn: nat)
    | ReadItem(txn: nat, row: Uuid)
    | Finish(txn: nat)

  // An active membership of the user in the project; without a unique index there may be several.
  predicate IsActive(s: Store, project: Uuid, user: Uuid, id: Uuid) {
    id in s.members && s.members[id].project == project && s.members[id].user == user && s.members[id].active
  }

  // The row that the command looks up besides the actor's.
  predicate IsItem(s: Store, c: Command, id: Uuid) {
    match c
    case AddMember(project, _, user, _, _) => IsActive(s, project, user, id)
    case TransferOwner(project, _, newOwner) => IsActive(s, project, newOwner, id)
    case ChangeRole(project, _, membership, _, _) => id == membership && id in s.members && s.members[id].project == project
    case RemoveMember(project, _, membership, _) => id == membership && id in s.members && s.members[id].project == project
  }

  ghost predicate Enabled(g: State, a: Action) {
    match a
    case CreateProject(project, membership, _) => project !in g.store.projects && membership !in g.store.members
    case Archive(project) => project in g.store.projects && !g.store.projects[project].archived
    case Begin(t, _) => t !in g.txns
    case ReadActor(t, row) => t in g.txns && IsActive(g.store, g.txns[t].command.project, g.txns[t].command.actor, row)
    case ReadProject(t) => t in g.txns && g.txns[t].command.project in g.store.projects
    case ReadItem(t, row) => t in g.txns && IsItem(g.store, g.txns[t].command, row)
    case Finish(t) => t in g.txns && (g.txns[t].command.AddMember? ==> g.txns[t].command.newId !in g.store.members)
  }

  ghost function Next(g: State, a: Action): State
    requires Enabled(g, a)
  {
    match a
    case CreateProject(project, membership, owner) =>
      g.(store := Store(g.store.members[membership := Membership(project, owner, Owner, true, 1)],
                        g.store.projects[project := Project(owner, false, 1)]))
    case Archive(project) =>
      var p := g.store.projects[project];
      g.(store := g.store.(projects := g.store.projects[project := p.(archived := true, version := p.version + 1)]))
    case Begin(t, c) => g.(txns := g.txns[t := Txn(c, None, None, None)])
    case ReadActor(t, row) => g.(txns := g.txns[t := g.txns[t].(actor := Some(Copy(row, g.store.members[row])))])
    case ReadProject(t) => g.(txns := g.txns[t := g.txns[t].(project := Some(g.store.projects[g.txns[t].command.project]))])
    case ReadItem(t, row) => g.(txns := g.txns[t := g.txns[t].(item := Some(Copy(row, g.store.members[row])))])
    case Finish(t) => State(Commit(g.store, g.txns[t]).0, g.txns - {t})
  }

  ghost function After(run: seq<Action>, n: nat): State
    requires n <= |run|
    decreases n
  {
    if n == 0 then State(Store(map[], map[]), map[])
    else
      var g := After(run, n - 1);
      if Enabled(g, run[n - 1]) then Next(g, run[n - 1]) else g
  }

  ghost predicate Reachable(g: State) { exists run, n: nat | n <= |run| :: After(run, n) == g }

  // ---------------------------------------------------------------------
  // The invariant
  // ---------------------------------------------------------------------

  ghost predicate IsOwner(s: Store, project: Uuid, id: Uuid) {
    id in s.members && s.members[id].project == project && s.members[id].role == Owner
  }

  /** The project has exactly one owner membership; it is active and belongs to the recorded owner. */
  ghost predicate OneOwner(s: Store, project: Uuid)
    requires project in s.projects
  {
    exists id :: IsOwner(s, project, id) && s.members[id].active && s.members[id].user == s.projects[project].owner
                 && forall other :: IsOwner(s, project, other) ==> other == id
  }

  // A copy is no newer than its row, and an old copy shows by its version.
  ghost predicate CopyOk(s: Store, c: Copy) {
    && c.id in s.members
    && c.row.project == s.members[c.id].project && c.row.user == s.members[c.id].user
    && c.row.version <= s.members[c.id].version
    && (c.row.version == s.members[c.id].version ==> c.row == s.members[c.id])
  }

  // The row that was looked up is the one that the command names.
  predicate ItemOk(t: Txn)
    requires t.item.Some?
  {
    match t.command
    case AddMember(_, _, user, _, _) => t.item.value.row.user == user && t.item.value.row.active
    case TransferOwner(_, _, newOwner) => t.item.value.row.user == newOwner && t.item.value.row.active
    case ChangeRole(_, _, membership, _, _) => t.item.value.id == membership
    case RemoveMember(_, _, membership, _) => t.item.value.id == membership
  }

  ghost predicate TxnOk(s: Store, t: Txn) {
    && (t.actor.Some? ==> CopyOk(s, t.actor.value) && t.actor.value.row.active
                          && t.actor.value.row.project == t.command.project && t.actor.value.row.user == t.command.actor)
    && (t.item.Some? ==> CopyOk(s, t.item.value) && t.item.value.row.project == t.command.project && ItemOk(t))
    && (t.project.Some? ==>
          t.command.project in s.projects && t.project.value.version <= s.projects[t.command.project].version
          && (t.project.value.version == s.projects[t.command.project].version ==>
                t.project.value == s.projects[t.command.project]))
  }

  ghost predicate Inv(g: State) {
    && (forall p {:trigger OneOwner(g.store, p)} | p in g.store.projects :: OneOwner(g.store, p))
    && (forall id {:trigger g.store.members[id]} | id in g.store.members :: g.store.members[id].project in g.store.projects)
    && (forall t {:trigger TxnOk(g.store, g.txns[t])} | t in g.txns :: TxnOk(g.store, g.txns[t]))
  }

  // Rows are only added or moved to a higher version, and stay in their project.
  ghost predicate Evolves(s: Store, r: Store) {
    && (forall id {:trigger s.members[id]} | id in s.members ::
          id in r.members && r.members[id].project == s.members[id].project && r.members[id].user == s.members[id].user
          && (r.members[id] == s.members[id] || r.members[id].version > s.members[id].version))
    && (forall p {:trigger s.projects[p]} | p in s.projects ::
          p in r.projects && (r.projects[p] == s.projects[p] || r.projects[p].version > s.projects[p].version))
  }

  lemma EvolvesKeepsTxn(s: Store, r: Store, t: Txn)
    requires Evolves(s, r) && TxnOk(s, t)
    ensures TxnOk(r, t)
  {
  }

  /** A store change that touches no row with or towards the owner role keeps the owner. */
  lemma SameOwner(s: Store, r: Store, p: Uuid)
    requires p in s.projects && p in r.projects && OneOwner(s, p)
    requires r.projects[p].owner == s.projects[p].owner
    requires forall id {:trigger IsOwner(s, p, id)} :: IsOwner(s, p, id) ==>
               id in r.members && r.members[id].project == p && r.members[id].role == Owner
               && r.members[id].active == s.members[id].active && r.members[id].user == s.members[id].user
    requires forall id {:trigger IsOwner(r, p, id)} :: IsOwner(r, p, id) ==> IsOwner(s, p, id)
    ensures OneOwner(r, p)
  {
  }

  // ---------------------------------------------------------------------
  // Commits
  // ---------------------------------------------------------------------

  /** A successful owner swap: both rows are as they were read, and they change places. */
  lemma SwapIsExact(s: Store, project: Uuid, current: Copy, target: Copy)
    requires CopyOk(s, current) && CopyOk(s, target)
    requires TransferOwnerRoles(s, project, current.id, target.id, current.row.version, target.row.version).1
    ensures current.id != target.id
    ensures s.members[current.id] == current.row && s.members[target.id] == target.row
    ensures TransferOwnerRoles(s, project, current.id, target.id, current.row.version, target.row.version).0.members ==
            s.members[current.id := current.row.(role := Admin, version := current.row.version + 1)]
                     [target.id := target.row.(role := Owner, version := target.row.version + 1)]
  {
    var ids := Swapped(s, project, current.id, target.id, current.row.version, target.row.version);
    assert ids <= {current.id, target.id};
    if current.id == target.id || current.id !in ids || target.id !in ids {
      var one := if current.id in ids then {current.id} else {target.id};
      assert ids <= one;
      SubsetSize(ids, one);
    }
  }

  lemma SaveKeepsInv(s: Store, item: Copy, row: Membership, p: Uuid)
    requires CopyOk(s, item) && item.row.role != Owner && row.role != Owner
    requires row.project == item.row.project && row.user == item.row.user && row.version == item.row.version + 1
    ensures Evolves(s, SaveMembership(s, Copy(item.id, row), item.row.version).0)
    ensures p in s.projects && OneOwner(s, p) ==>
              p in SaveMembership(s, Copy(item.id, row), item.row.version).0.projects
              && OneOwner(SaveMembership(s, Copy(item.id, row), item.row.version).0, p)
  {
    var r := SaveMembership(s, Copy(item.id, row), item.row.version).0;
    if p in s.projects && OneOwner(s, p) {
      SameOwner(s, r, p);
    }
  }

  /** The owner moves from the current to the target membership, and the project records it. */
  lemma TransferKeepsInv(s: Store, t: Txn, p: Uuid)
    requires TxnOk(s, t) && t.command.TransferOwner? && Commit(s, t).1
    requires p in s.projects && OneOwner(s, p)
    ensures Evolves(s, Commit(s, t).0)
    ensures p in Commit(s, t).0.projects && OneOwner(Commit(s, t).0, p)
  {
    var r := Commit(s, t).0;
    var current, target := t.actor.value, t.item.value;
    SwapIsExact(s, t.command.project, current, target);
    if p != t.command.project {
      SameOwner(s, r, p);
    } else {
      var id :| IsOwner(s, p, id) && s.members[id].active && s.members[id].user == s.projects[p].owner
                && forall other :: IsOwner(s, p, other) ==> other == id;
      assert IsOwner(s, p, current.id);
      forall other | IsOwner(r, p, other)
        ensures other == target.id
      {
        if other != target.id && other != current.id {
          assert IsOwner(s, p, other);
        }
      }
      assert IsOwner(r, p, target.id);
    }
  }

  lemma AddKeepsInv(s: Store, id: Uuid, row: Membership, p: Uuid)
    requires id !in s.members && row.role != Owner
    ensures Evolves(s, s.(members := s.members[id := row]))
    ensures p in s.projects && OneOwner(s, p) ==> OneOwner(s.(members := s.members[id := row]), p)
  {
    if p in s.projects && OneOwner(s, p) {
      SameOwner(s, s.(members := s.members[id := row]), p);
    }
  }

  /** Whatever a transaction commits, each project keeps one active owner. */
  lemma CommitKeepsOwner(s: Store, t: Txn, p: Uuid)
    requires TxnOk(s, t) && (t.command.AddMember? ==> t.command.newId !in s.members)
    requires p in s.projects && OneOwner(s, p)
    ensures Evolves(s, Commit(s, t).0)
    ensures p in Commit(s, t).0.projects && OneOwner(Commit(s, t).0, p)
  {
    if Commit(s, t).1 {
      match t.command
      case AddMember(project, _, user, role, newId) =>
        AddKeepsInv(s, newId, Membership(project, user, role, true, 1), p);
      case ChangeRole(_, _, _, role, _) =>
        var row := t.item.value.row;
        SaveKeepsInv(s, t.item.value, row.(role := role, version := row.version + 1), p);
      case RemoveMember(_, _, _, _) =>
        var row := t.item.value.row;
        SaveKeepsInv(s, t.item.value, row.(active := false, version := row.version + 1), p);
      case TransferOwner(_, _, _) => TransferKeepsInv(s, t, p);
    }
  }

  lemma CommitKeepsRows(s: Store, t: Txn)
    requires TxnOk(s, t) && (t.command.AddMember? ==> t.command.newId !in s.members)
    requires forall id {:trigger s.members[id]} | id in s.members :: s.members[id].project in s.projects
    requires t.command.project in s.projects
    ensures Evolves(s, Commit(s, t).0)
    ensures var r := Commit(s, t).0;
            forall id {:trigger r.members[id]} | id in r.members :: r.members[id].project in r.projects
  {
  }

  lemma FinishKeepsInv(g: State, t: nat)
    requires Inv(g) && Enabled(g, Finish(t))
    ensures Inv(Next(g, Finish(t)))
  {
    var h := Next(g, Finish(t));
    assert TxnOk(g.store, g.txns[t]);
    if Access(g.txns[t]) {
      CommitKeepsRows(g.store, g.txns[t]);
    }
    forall p | p in h.store.projects
      ensures OneOwner(h.store, p)
    {
      assert OneOwner(g.store, p);
      CommitKeepsOwner(g.store, g.txns[t], p);
    }
    forall u | u in h.txns
      ensures TxnOk(h.store, h.txns[u])
    {
      assert TxnOk(g.store, g.txns[u]);
      EvolvesKeepsTxn(g.store, h.store, g.txns[u]);
    }
  }

  lemma CreateKeepsInv(g: State, a: Action)
    requires Inv(g) && a.CreateProject? && Enabled(g, a)
    ensures Inv(Next(g, a))
  {
    var h := Next(g, a);
    forall p | p in h.store.projects
      ensures OneOwner(h.store, p)
    {
      if p == a.project {
        assert IsOwner(h.store, p, a.membership);
      } else {
        assert OneOwner(g.store, p);
        SameOwner(g.store, h.store, p);
      }
    }
    forall u | u in h.txns
      ensures TxnOk(h.store, h.txns[u])
    {
      assert TxnOk(g.store, g.txns[u]);
      EvolvesKeepsTxn(g.store, h.store, g.txns[u]);
    }
  }

  lemma ArchiveKeepsInv(g: State, a: Action)
    requires Inv(g) && a.Archive? && Enabled(g, a)
    ensures Inv(Next(g, a))
  {
    var h := Next(g, a);
    forall p | p in h.store.projects
      ensures OneOwner(h.store, p)
    {
      assert OneOwner(g.store, p);
      SameOwner(g.store, h.store, p);
    }
    forall u | u in h.txns
      ensures TxnOk(h.store, h.txns[u])
    {
      assert TxnOk(g.store, g.txns[u]);
      EvolvesKeepsTxn(g.store, h.store, g.txns[u]);
    }
  }

  lemma ReadKeepsInv(g: State, a: Action)
    requires Inv(g) && Enabled(g, a) && (a.Begin? || a.ReadActor? || a.ReadProject? || a.ReadItem?)
    ensures Inv(Next(g, a))
  {
    var h := Next(g, a);
    assert h.store == g.store;
    forall u | u in h.txns
      ensures TxnOk(h.store, h.txns[u])
    {
      if u in g.txns {
        assert TxnOk(g.store, g.txns[u]);
      }
    }
    forall p | p in h.store.projects
      ensures OneOwner(h.store, p)
    {
      assert OneOwner(g.store, p);
    }
  }

  lemma {:induction false} RunKeepsInv(run: seq<Action>, n: nat)
    requires n <= |run|
    ensures Inv(After(run, n))
    decreases n
  {
    if n > 0 {
      RunKeepsInv(run, n - 1);
      var g, a := After(run, n - 1), run[n - 1];
      if Enabled(g, a) {
        match a
        case CreateProject(_, _, _) => CreateKeepsInv(g, a);
        case Archive(_) => ArchiveKeepsInv(g, a);
        case Finish(t) => FinishKeepsInv(g, t);
        case _ => ReadKeepsInv(g, a);
      }
    }
  }

  /** In every state of every interleaving, every project has exactly one owner, active and recorded. */
  lemma EveryProjectHasOneOwner(g: State, project: Uuid)
    requires Reachable(g) && project in g.store.projects
    ensures OneOwner(g.store, project)
  {
    var run, n: nat :| n <= |run| && After(run, n) == g;
    RunKeepsInv(run, n);
  }

  // ---------------------------------------------------------------------
  // What the version checks decide
  // ---------------------------------------------------------------------

  predicate Unchanged(s: Store, c: Copy) { c.id in s.members && s.members[c.id] == c.row }

  /** Exactly when a transfer goes through: nothing it read has changed, and it is not to the same row. */
  lemma TransferSucceedsIff(g: State, t: nat)
    requires Reachable(g) && t in g.txns && g.txns[t].command.TransferOwner?
    ensures Commit(g.store, g.txns[t]).1 <==>
            var x := g.txns[t];
            && Access(x) && x.item.Some? && x.item.value.row.role != Viewer
            && x.actor.value.id != x.item.value.id
            && Unchanged(g.store, x.actor.value) && Unchanged(g.store, x.item.value)
            && x.command.project in g.store.projects && g.store.projects[x.command.project] == x.project.value
  {
    var run, n: nat :| n <= |run| && After(run, n) == g;
    RunKeepsInv(run, n);
    var s, x := g.store, g.txns[t];
    assert TxnOk(s, x);
    if Access(x) && x.item.Some? {
      var current, target := x.actor.value, x.item.value;
      var ids := Swapped(s, x.command.project, current.id, target.id, current.row.version, target.row.version);
      if Commit(s, x).1 {
        SwapIsExact(s, x.command.project, current, target);
      }
      if current.id != target.id && s.members[current.id] == current.row && s.members[target.id] == target.row {
        assert ids == {current.id, target.id};
      }
    }
  }

  // ---------------------------------------------------------------------
  // What a commit does
  // ---------------------------------------------------------------------

  /** The acting user had an active membership with one of the roles, and the project was live. */
  predicate ActsAs(x: Txn, roles: set<Role>) {
    && x.actor.Some? && x.actor.value.row.active && x.actor.value.row.user == x.command.actor
    && x.actor.value.row.project == x.command.project && x.actor.value.row.role in roles
    && x.project.Some? && !x.project.value.archived
  }

  lemma ReachableTxn(g: State, t: nat)
    requires Reachable(g) && t in g.txns
    ensures TxnOk(g.store, g.txns[t]) && Inv(g)
  {
    var run, n: nat :| n <= |run| && After(run, n) == g;
    RunKeepsInv(run, n);
  }

  /** When a role change is committed, and what it leaves: the new role and the next version in that row alone. */
  lemma RoleChangeIff(g: State, t: nat)
    requires Reachable(g) && t in g.txns && g.txns[t].command.ChangeRole?
    ensures var s, x, c := g.store, g.txns[t], g.txns[t].command;
            && (Commit(s, x).1 <==>
                  && ActsAs(x, {Owner, Admin}) && x.item.Some? && c.role != Owner
                  && x.item.value.row.version == c.expected && x.item.value.row.role != Owner
                  && c.membership in s.members && s.members[c.membership].version == c.expected)
            && Commit(s, x).0 == if !Commit(s, x).1 then s
                                 else s.(members := s.members[c.membership :=
                                          s.members[c.membership].(role := c.role, version := c.expected + 1)])
  {
    ReachableTxn(g, t);
  }

  /** The same for a removal: the row stays with its role, inactive. */
  lemma RemovalIff(g: State, t: nat)
    requires Reachable(g) && t in g.txns && g.txns[t].command.RemoveMember?
    ensures var s, x, c := g.store, g.txns[t], g.txns[t].command;
            && (Commit(s, x).1 <==>
                  && ActsAs(x, {Owner, Admin}) && x.item.Some?
                  && x.item.value.row.version == c.expected && x.item.value.row.role != Owner
                  && c.membership in s.members && s.members[c.membership].version == c.expected)
            && Commit(s, x).0 == if !Commit(s, x).1 then s
                                 else s.(members := s.members[c.membership :=
                                          s.members[c.membership].(active := false, version := c.expected + 1)])
  {
    ReachableTxn(g, t);
  }

  /** A user is added with the requested role, unless a membership was found; nobody is added as owner. */
  lemma AdditionIff(g: State, t: nat)
    requires Reachable(g) && t in g.txns && g.txns[t].command.AddMember?
    ensures var s, x, c := g.store, g.txns[t], g.txns[t].command;
            && (Commit(s, x).1 <==> ActsAs(x, {Owner, Admin}) && c.role != Owner)
            && Commit(s, x).0 == if !Commit(s, x).1 || x.item.Some? then s
                                 else s.(members := s.members[c.newId := Membership(c.project, c.user, c.role, true, 1)])
  {
    ReachableTxn(g, t);
  }

  /** A transfer that is committed makes the old owner an admin and the new one the owner, also in the project. */
  lemma TransferEffect(g: State, t: nat)
    requires Reachable(g) && t in g.txns && g.txns[t].command.TransferOwner?
    ensures var s, x := g.store, g.txns[t];
            if !Commit(s, x).1 then Commit(s, x).0 == s
            else
              && ActsAs(x, {Owner}) && x.item.Some? && x.item.value.row.user == x.command.newOwner
              && var a, b, p := x.actor.value.id, x.item.value.id, x.command.project;
              a in s.members && b in s.members && p in s.projects && a != b
              && Commit(s, x).0 == Store(
                   s.members[a := s.members[a].(role := Admin, version := s.members[a].version + 1)]
                            [b := s.members[b].(role := Owner, version := s.members[b].version + 1)],
                   s.projects[p := s.projects[p].(owner := x.command.newOwner, version := s.projects[p].version + 1)])
  {
    ReachableTxn(g, t);
    if Commit(g.store, g.txns[t]).1 {
      SwapIsExact(g.store, g.txns[t].command.project, g.txns[t].actor.value, g.txns[t].item.value);
    }
  }

  /** A new project starts with its creator as the one owner; archiving a project only closes it. */
  lemma ProjectSteps(g: State, a: Action)
    requires Inv(g) && Enabled(g, a) && (a.CreateProject? || a.Archive?)
    ensures Next(g, a).txns == g.txns
    ensures a.CreateProject? ==>
              && Next(g, a).store.members == g.store.members[a.membership := Membership(a.project, a.owner, Owner, true, 1)]
              && Next(g, a).store.projects == g.store.projects[a.project := Project(a.owner, false, 1)]
    ensures a.Archive? ==>
              var p := g.store.projects[a.project];
              Next(g, a).store == Store(g.store.members, g.store.projects[a.project := Project(p.owner, true, p.version + 1)])
  {
  }

  // ---------------------------------------------------------------------
  // The unique index on active owners
  // ---------------------------------------------------------------------

  // The swap's effect on one matched row.
  function RoleSet(s: Store, id: Uuid, current: Uuid): Store
    requires id in s.members
  {
    s.(members := s.members[id := s.members[id].(role := if id == current then Admin else Owner,
                                                 version := s.members[id].version + 1)])
  }

  // An active owner that another active owner of the project keeps out of the index.
  ghost predicate Clashes(s: Store, id: Uuid)
    requires id in s.members
  {
    s.members[id].active && s.members[id].role == Owner
    && exists other {:trigger s.members[other]} | other in s.members && other != id ::
         s.members[other].project == s.members[id].project && s.members[other].active && s.members[other].role == Owner
  }

  /** The statement visits the matched rows one by one, and the index is checked after each. */
  ghost function SwapRows(s: Store, ids: set<Uuid>, current: Uuid, order: seq<Uuid>): Option<Store>
    requires ids <= s.members.Keys
    decreases |order|
  {
    if order == [] then Some(s)
    else if order[0] !in ids then SwapRows(s, ids, current, order[1..])
    else
      var t := RoleSet(s, order[0], current);
      if Clashes(t, order[0]) then None else SwapRows(t, ids, current, order[1..])
  }

  /** A transfer over a table with the index, for the order in which the statement visits its rows. */
  ghost function IndexedTransfer(s: Store, t: Txn, order: seq<Uuid>): (Store, bool)
    requires t.command.TransferOwner?
  {
    if !Access(t) || t.item.None? || t.item.value.row.role == Viewer then (s, false)
    else
      var current, target, project := t.actor.value, t.item.value, t.command.project;
      var ids := Swapped(s, project, current.id, target.id, current.row.version, target.row.version);
      var swapped := SwapRows(s, ids, current.id, order);
      if swapped.None? || |ids| != 2 then (s, false)
      else
        var p := t.project.value;
        var (s2, saved) :=
          SaveProject(swapped.value, project, p.(owner := target.row.user, version := p.version + 1), p.version);
        if saved then (s2, true) else (s, false)
  }

  // The order visits each of the two rows once.
  predicate Visits(order: seq<Uuid>, a: Uuid, b: Uuid) {
    if a == b then order == [a] else order == [a, b] || order == [b, a]
  }

  // Both rows matched: the swap goes through if the old owner's row is visited first, and clashes otherwise.
  lemma SwapInOrder(s: Store, project: Uuid, current: Copy, target: Copy, order: seq<Uuid>)
    requires CopyOk(s, current) && CopyOk(s, target) && current.id != target.id
    requires s.members[current.id] == current.row && s.members[target.id] == target.row
    requires current.row.project == project == target.row.project && current.row.active && target.row.active
    requires current.row.role == Owner && forall other :: IsOwner(s, project, other) ==> other == current.id
    requires Visits(order, current.id, target.id)
    ensures var r := SwapRows(s, {current.id, target.id}, current.id, order);
            if order[0] == current.id then
              r == Some(TransferOwnerRoles(s, project, current.id, target.id, current.row.version, target.row.version).0)
            else r.None?
  {
    var a, b := current.id, target.id;
    if order[0] == a {
      assert order[1..] == [b] && [b][1..] == [];
      var t := RoleSet(s, a, a);
      assert !Clashes(t, a);
      var u := RoleSet(t, b, a);
      forall other | other in u.members && other != b && u.members[other].project == project
        ensures u.members[other].role != Owner
      {
        assert IsOwner(s, project, other) ==> other == a;
      }
      assert !Clashes(u, b);
      assert SwapRows(s, {a, b}, a, order) == SwapRows(t, {a, b}, a, [b]) == SwapRows(u, {a, b}, a, []);
      assert Swapped(s, project, a, b, current.row.version, target.row.version) == {a, b};
      assert u.members == TransferOwnerRoles(s, project, a, b, current.row.version, target.row.version).0.members;
    } else {
      var t := RoleSet(s, b, a);
      assert t.members[a] == current.row;
      assert Clashes(t, b);
    }
  }

  /**
   Over the table with the index a transfer commits exactly when it does without, and the statement comes to the
   old owner's row before the new one's. It then has the same effect.
   */
  lemma IndexedTransferIff(g: State, t: nat, order: seq<Uuid>)
    requires Reachable(g) && t in g.txns && g.txns[t].command.TransferOwner?
    requires var x := g.txns[t]; x.actor.Some? && x.item.Some? ==> Visits(order, x.actor.value.id, x.item.value.id)
    ensures var x := g.txns[t]; var r := IndexedTransfer(g.store, x, order);
            && (r.1 <==> Commit(g.store, x).1 && order[0] == x.actor.value.id)
            && (r.1 ==> r.0 == Commit(g.store, x).0)
  {
    var run, n: nat :| n <= |run| && After(run, n) == g;
    RunKeepsInv(run, n);
    var s, x := g.store, g.txns[t];
    assert TxnOk(s, x);
    if Access(x) && x.item.Some? && x.item.value.row.role != Viewer {
      var current, target, project := x.actor.value, x.item.value, x.command.project;
      var ids := Swapped(s, project, current.id, target.id, current.row.version, target.row.version);
      if |ids| == 2 {
        SwapIsExact(s, project, current, target);
        assert ids == {current.id, target.id};
        assert OneOwner(s, project);
        assert IsOwner(s, project, current.id);
        SwapInOrder(s, project, current, target, order);
      }
    }
  }

  /** The row that a transaction writes under a version guard. */
  predicate Writes(x: Txn, id: Uuid) {
    (x.item.Some? && !x.command.AddMember? && x.item.value.id == id)
    || (x.command.TransferOwner? && x.actor.Some? && x.actor.value.id == id)
  }

  ghost function VersionRead(x: Txn, id: Uuid): nat
    requires Writes(x, id)
  {
    if x.item.Some? && !x.command.AddMember? && x.item.value.id == id then x.item.value.row.version
    else x.actor.value.row.version
  }

  /** Of two transactions that read the same version of a row to write it, at most one commits. */
  lemma NoLostUpdate(g: State, t: nat, u: nat, id: Uuid)
    requires Reachable(g) && t in g.txns && u in g.txns && t != u
    requires Writes(g.txns[t], id) && Writes(g.txns[u], id)
    requires VersionRead(g.txns[t], id) == VersionRead(g.txns[u], id)
    requires Commit(g.store, g.txns[t]).1
    ensures !Commit(Commit(g.store, g.txns[t]).0, g.txns[u]).1
  {
    var run, n: nat :| n <= |run| && After(run, n) == g;
    RunKeepsInv(run, n);
    assert TxnOk(g.store, g.txns[t]) && TxnOk(g.store, g.txns[u]);
    var r := Commit(g.store, g.txns[t]).0;
    WrittenRowMoves(g.store, g.txns[t], id);
    StaleGuardFails(r, g.txns[u], id);
  }

  lemma WrittenRowMoves(s: Store, x: Txn, id: Uuid)
    requires TxnOk(s, x) && Writes(x, id) && Commit(s, x).1
    ensures id in Commit(s, x).0.members && Commit(s, x).0.members[id].version == VersionRead(x, id) + 1
  {
    if x.command.TransferOwner? {
      SwapIsExact(s, x.command.project, x.actor.value, x.item.value);
    }
  }

  lemma StaleGuardFails(s: Store, x: Txn, id: Uuid)
    requires Writes(x, id) && id in s.members && s.members[id].version != VersionRead(x, id)
    ensures !Commit(s, x).1
  {
    if x.command.TransferOwner? && x.actor.Some? && x.item.Some? {
      var current, target := x.actor.value, x.item.value;
      var ids := Swapped(s, x.command.project, current.id, target.id, current.row.version, target.row.version);
      if current.id != target.id {
        assert ids <= {if id == current.id then target.id else current.id};
        SubsetSize(ids, {if id == current.id then target.id else current.id});
      } else {
        assert ids <= {current.id};
        SubsetSize(ids, {current.id});
      }
    }
  }

  // ---------------------------------------------------------------------
  // The rows and the service
  // ---------------------------------------------------------------------

  class ProjectMembership {
    const id: Uuid
    const projectId: Uuid
    const userId: Uuid
    var role: Role
    var active: bool
    var version: nat

    function Value(): Copy
      reads this
    {
      Copy(id, Membership(projectId, userId, role, active, version))
    }

    constructor (c: Copy)
      ensures Value() == c
    {
      id, projectId, userId := c.id, c.row.project, c.row.user;
      role, active, version := c.row.role, c.row.active, c.row.version;
    }

    method ChangeRole(newRole: Role, expected: nat) returns (r: Result<nat>)
      modifies this
      ensures r.Ok? <==> old(version) == expected && old(role) != Owner && newRole != Owner
      ensures r.Err? ==> Value() == old(Value())
                         && r.code == (if old(version) != expected then "VERSION_CONFLICT" else "OWNER_TRANSFER_REQUIRED")
      ensures r.Ok? ==> Value() == Copy(id, old(Value()).row.(role := newRole, version := expected + 1))
    {
      if version != expected {
        return Err("VERSION_CONFLICT");
      }
      if role == Owner || newRole == Owner {
        return Err("OWNER_TRANSFER_REQUIRED");
      }
      role, version := newRole, version + 1;
      return Ok(version);
    }

    method Remove(expected: nat) returns (r: Result<nat>)
      modifies this
      ensures r.Ok? <==> old(version) == expected && old(role) != Owner
      ensures r.Err? ==> Value() == old(Value())
                         && r.code == (if old(version) != expected then "VERSION_CONFLICT" else "OWNER_TRANSFER_REQUIRED")
      ensures r.Ok? ==> Value() == Copy(id, old(Value()).row.(active := false, version := expected + 1))
    {
      if version != expected {
        return Err("VERSION_CONFLICT");
      }
      if role == Owner {
        return Err("OWNER_TRANSFER_REQUIRED");
      }
      active, version := false, version + 1;
      return Ok(version);
    }
  }

  /** The tables, and the service's writes when nothing interleaves. */
  class CollaborationService {
    var store: Store

    constructor (store: Store)
      ensures this.store == store
    {
      this.store := store;
    }

    // Reading a row makes a new object.
    method GetActiveMembership(project: Uuid, user: Uuid) returns (m: ProjectMembership?)
      ensures m == null <==> !HasActive(store, project, user)
      ensures m != null ==> fresh(m) && IsActive(store, project, user, m.id) && m.Value() == Copy(m.id, store.members[m.id])
    {
      if id :| id in store.members && IsActive(store, project, user, id) {
        m := new ProjectMembership(Copy(id, store.members[id]));
      } else {
        m := null;
      }
    }

    method GetMembership(project: Uuid, id: Uuid) returns (m: ProjectMembership?)
      ensures m == null <==> !(id in store.members && store.members[id].project == project)
      ensures m != null ==> fresh(m) && m.id == id && m.Value() == Copy(id, store.members[id])
    {
      if id in store.members && store.members[id].project == project {
        m := new ProjectMembership(Copy(id, store.members[id]));
      } else {
        m := null;
      }
    }

    /** Add a user to the project; one who is a member already stays as is. */
    method AddToProject(c: Command) returns (ok: bool, ghost x: Txn)
      requires c.AddMember? && c.newId !in store.members
      modifies this
      ensures ReadsOf(old(store), c, x)
      ensures (store, ok) == Commit(old(store), x)
      ensures ok ==> store == if HasActive(old(store), c.project, c.user) then old(store)
                              else old(store).(members := old(store).members[c.newId :=
                                     Membership(c.project, c.user, c.role, true, 1)])
      ensures !ok ==> store == old(store)
    {
      var actor := GetActiveMembership(c.project, c.actor);
      var existing := GetActiveMembership(c.project, c.user);
      x := TxnOf(store, c, if actor == null then None else Some(actor.Value()),
                 if existing == null then None else Some(existing.Value()));
      ItemByUser(store, c);
      if c.role == Owner || actor == null || c.project !in store.projects || store.projects[c.project].archived
         || !MayManage(actor.role)
      {
        return false, x;
      }
      if existing == null {
        store := store.(members := store.members[c.newId := Membership(c.project, c.user, c.role, true, 1)]);
      }
      return true, x;
    }

    /** Change a member's role; the read rows are reported as the transaction x. */
    method ChangeMemberRole(c: Command) returns (ok: bool, ghost x: Txn)
      requires c.ChangeRole?
      modifies this
      ensures ReadsOf(old(store), c, x)
      ensures (store, ok) == Commit(old(store), x)
      ensures ok ==> c.membership in old(store).members
                     && store == old(store).(members := old(store).members[c.membership :=
                                   old(store).members[c.membership].(role := c.role, version := c.expected + 1)])
      ensures !ok ==> store == old(store)
    {
      var actor := GetActiveMembership(c.project, c.actor);
      var item := GetMembership(c.project, c.membership);
      x := TxnOf(store, c, if actor == null then None else Some(actor.Value()),
                 if item == null then None else Some(item.Value()));
      ItemById(store, c);
      if actor == null || c.project !in store.projects || store.projects[c.project].archived || !MayManage(actor.role)
         || item == null
      {
        return false, x;
      }
      var r := item.ChangeRole(c.role, c.expected);
      if r.Err? {
        return false, x;
      }
      var saved;
      store, saved := SaveMembership(store, item.Value(), c.expected).0, SaveMembership(store, item.Value(), c.expected).1;
      return saved, x;
    }

    /** Take a member out; the owner cannot be removed. */
    method DropMember(c: Command) returns (ok: bool, ghost x: Txn)
      requires c.RemoveMember?
      modifies this
      ensures ReadsOf(old(store), c, x)
      ensures (store, ok) == Commit(old(store), x)
      ensures ok ==> c.membership in old(store).members
                     && store == old(store).(members := old(store).members[c.membership :=
                                   old(store).members[c.membership].(active := false, version := c.expected + 1)])
      ensures !ok ==> store == old(store)
    {
      var actor := GetActiveMembership(c.project, c.actor);
      var item := GetMembership(c.project, c.membership);
      x := TxnOf(store, c, if actor == null then None else Some(actor.Value()),
                 if item == null then None else Some(item.Value()));
      ItemById(store, c);
      if actor == null || c.project !in store.projects || store.projects[c.project].archived || !MayManage(actor.role)
         || item == null
      {
        return false, x;
      }
      var r := item.Remove(c.expected);
      if r.Err? {
        return false, x;
      }
      var saved;
      store, saved := SaveMembership(store, item.Value(), c.expected).0, SaveMembership(store, item.Value(), c.expected).1;
      return saved, x;
    }

    /** Hand the project over: both rows in one statement, then the project. */
    method TransferOwnership(c: Command) returns (ok: bool, ghost x: Txn)
      requires c.TransferOwner?
      modifies this
      ensures ReadsOf(old(store), c, x)
      ensures (store, ok) == Commit(old(store), x)
      ensures !ok ==> store == old(store)
    {
      var current := GetActiveMembership(c.project, c.actor);
      var target := GetActiveMembership(c.project, c.newOwner);
      x := TxnOf(store, c, if current == null then None else Some(current.Value()),
                 if target == null then None else Some(target.Value()));
      ItemByUser(store, c);
      if current == null || c.project !in store.projects || store.projects[c.project].archived || current.role != Owner
         || target == null || target.role == Viewer
      {
        return false, x;
      }
      var p := store.projects[c.project];
      var (s1, swapped) :=
        TransferOwnerRoles(store, c.project, current.id, target.id, current.version, target.version);
      if !swapped {
        return false, x;
      }
      var (s2, saved) := SaveProject(s1, c.project, p.(owner := target.userId, version := p.version + 1), p.version);
      if !saved {
        return false, x;
      }
      store := s2;
      return true, x;
    }
  }

  ghost predicate HasActive(s: Store, project: Uuid, user: Uuid) { exists id :: IsActive(s, project, user, id) }

  ghost predicate HasItem(s: Store, c: Command) { exists id :: IsItem(s, c, id) }

  lemma ItemById(s: Store, c: Command)
    requires c.ChangeRole? || c.RemoveMember?
    ensures HasItem(s, c) <==> IsItem(s, c, c.membership)
  {
  }

  lemma ItemByUser(s: Store, c: Command)
    requires c.TransferOwner? || c.AddMember?
    ensures HasItem(s, c) <==> HasActive(s, c.project, if c.TransferOwner? then c.newOwner else c.user)
  {
    var user := if c.TransferOwner? then c.newOwner else c.user;
    if HasItem(s, c) {
      var id :| IsItem(s, c, id);
      assert IsActive(s, c.project, user, id);
    }
    if HasActive(s, c.project, user) {
      var id :| IsActive(s, c.project, user, id);
      assert IsItem(s, c, id);
    }
  }

  ghost function TxnOf(s: Store, c: Command, actor: Option<Copy>, item: Option<Copy>): Txn {
    Txn(c, actor, if c.project in s.projects then Some(s.projects[c.project]) else None, item)
  }

  /** The transaction holds exactly what its lookups find in the store. */
  ghost predicate ReadsOf(s: Store, c: Command, x: Txn) {
    && x.command == c
    && x.project == (if c.project in s.projects then Some(s.projects[c.project]) else None)
    && (x.actor.None? <==> !HasActive(s, c.project, c.actor))
    && (x.actor.Some? ==> IsActive(s, c.project, c.actor, x.actor.value.id)
                          && x.actor.value.row == s.members[x.actor.value.id])
    && (x.item.None? <==> !HasItem(s, c))
    && (x.item.Some? ==> IsItem(s, c, x.item.value.id) && x.item.value.row == s.members[x.item.value.id])
  }
}

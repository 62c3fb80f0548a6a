/**
 Sessions of iam-service: login, rotation of refresh tokens with detection of reuse, logout.
 A stored digest stands for the token it was computed from, so equal digests are equal tokens.
 */
module IamSessions {
  import opened Options

  type Token = string

  datatype Digest = Digest(raw: Token)

  datatype UserStatus = UserActive | UserDisabled | UserLocked

  datatype User = User(username: string, status: UserStatus)

  datatype SessionStatus = Active | Revoked | Expired

  datatype Row = Row(user: Uuid, family: Uuid, current: Digest, previous: Option<Digest>,
                     status: SessionStatus, reason: string, version: nat)

  datatype Audit = Audit(action: string, actor: Uuid, result: string)

  datatype Iam = Iam(users: map<Uuid, User>, sessions: map<Uuid, Row>, audit: seq<Audit>)

  datatype Command =
    | Login(authenticated: bool, username: string, newUser: Uuid, newSession: Uuid, newFamily: Uuid, newToken: Token)
    | Refresh(token: Token, newToken: Token)
    | Logout(token: Token)
    | SetUser(user: Uuid, status: UserStatus)   // done elsewhere in the service

  datatype Outcome =
    | Pair(session: Uuid, family: Uuid, token: Token)
    | Denied
    | Reused(family: Uuid)   // denied, and the family is revoked
    | Done

  // ---------------------------------------------------------------------
  // Commands on values
  // ---------------------------------------------------------------------

  predicate Holds(s: Row, d: Digest) { s.current == d || s.previous == Some(d) }

  ghost predicate HoldsAt(sessions: map<Uuid, Row>, d: Digest, id: Uuid) { id in sessions && Holds(sessions[id], d) }

  ghost function FindSession(sessions: map<Uuid, Row>, d: Digest): Option<Uuid> {
    if exists id :: HoldsAt(sessions, d, id) then
      var id :| HoldsAt(sessions, d, id);
      Some(id)
    else None
  }

  ghost predicate NamedAt(users: map<Uuid, User>, name: string, id: Uuid) { id in users && users[id].username == name }

  ghost function FindUser(users: map<Uuid, User>, name: string): Option<Uuid> {
    if exists id :: NamedAt(users, name, id) then
      var id :| NamedAt(users, name, id);
      Some(id)
    else None
  }

  function Rotated(s: Row, d: Digest): Row {
    s.(previous := Some(s.current), current := d, version := s.version + 1)
  }

  function RevokedRow(s: Row, reason: string): Row {
    s.(status := Revoked, reason := reason, version := s.version + 1)
  }

  function RevokeFamily(sessions: map<Uuid, Row>, family: Uuid, reason: string): map<Uuid, Row> {
    map id | id in sessions ::
      if sessions[id].family == family && sessions[id].status == Active then RevokedRow(sessions[id], reason)
      else sessions[id]
  }

  ghost function Step(st: Iam, c: Command): (Iam, Outcome) {
    match c
    case Login(_, _, _, _, _, _) => StepLogin(st, c)
    case Refresh(token, newToken) => StepRefresh(st, token, newToken)
    case Logout(token) =>
      var found := FindSession(st.sessions, Digest(token));
      if found.Some? && st.sessions[found.value].status == Active then
        (st.(sessions := st.sessions[found.value := RevokedRow(st.sessions[found.value], "logout")]), Done)
      else (st, Done)
    case SetUser(user, status) =>
      if user in st.users then (st.(users := st.users[user := st.users[user].(status := status)]), Done) else (st, Done)
  }

  ghost function StepLogin(st: Iam, c: Command): (Iam, Outcome)
    requires c.Login?
  {
    if !c.authenticated then (st, Denied)
    else
      var known := FindUser(st.users, c.username);
      var user := if known.Some? then known.value else c.newUser;
      var users := if known.Some? then st.users else st.users[user := User(c.username, UserActive)];
      if users[user].status != UserActive then (st, Denied)
      else
        var row := Row(user, c.newFamily, Digest(c.newToken), None, Active, "", 1);
        (Iam(users, st.sessions[c.newSession := row], st.audit + [Audit("identity.login", user, "success")]),
         Pair(c.newSession, c.newFamily, c.newToken))
  }

  ghost function StepRefresh(st: Iam, token: Token, newToken: Token): (Iam, Outcome) {
    var found := FindSession(st.sessions, Digest(token));
    if found.None? || st.sessions[found.value].status != Active then (st, Denied)
    else
      var id, s := found.value, st.sessions[found.value];
      if s.previous == Some(Digest(token)) then
        (Iam(st.users, RevokeFamily(st.sessions, s.family, "refresh_token_reused"),
             st.audit + [Audit("identity.refresh_reuse", s.user, "denied")]), Reused(s.family))
      else if s.user !in st.users || st.users[s.user].status != UserActive then
        (st.(sessions := st.sessions[id := RevokedRow(s, "user_inactive")]), Denied)
      else
        (st.(sessions := st.sessions[id := Rotated(s, Digest(newToken))]), Pair(id, s.family, newToken))
  }

  // ---------------------------------------------------------------------
  // Histories
  // ---------------------------------------------------------------------

  /** A state with its past: which family each issued token belongs to, and what was used up. */
  datatype Past = Past(st: Iam, issued: map<Token, Uuid>, spent: set<Token>, burnt: set<Uuid>)

  const START := Past(Iam(map[], map[], []), map[], {}, {})

  ghost function Advance(p: Past, c: Command): Past {
    var (st, out) := Step(p.st, c);
    Past(st,
         if out.Pair? then p.issued[out.token := out.family] else p.issued,
         if c.Refresh? && out.Pair? then p.spent + {c.token} else p.spent,
         if out.Reused? then p.burnt + {out.family} else p.burnt)
  }

  /** Identifiers and tokens that a command creates were never used before. */
  ghost predicate Fresh(p: Past, c: Command) {
    match c
    case Login(_, _, newUser, newSession, newFamily, newToken) =>
      newUser !in p.st.users && newSession !in p.st.sessions && newToken !in p.issued
      && (forall id | id in p.st.sessions :: p.st.sessions[id].family != newFamily) && newFamily !in p.burnt
    case Refresh(_, newToken) => newToken !in p.issued
    case _ => true
  }

  ghost function After(p: Past, cs: seq<Command>, n: nat): Past
    requires n <= |cs|
    decreases n
  {
    if n == 0 then p else Advance(After(p, cs, n - 1), cs[n - 1])
  }

  ghost predicate FreshRun(p: Past, cs: seq<Command>) {
    forall i: nat {:trigger After(p, cs, i)} | i < |cs| :: Fresh(After(p, cs, i), cs[i])
  }

  /** What the i-th command of a run answered. */
  ghost function OutcomeAt(p: Past, cs: seq<Command>, i: nat): Outcome
    requires i < |cs|
  {
    Step(After(p, cs, i).st, cs[i]).1
  }

  // ---------------------------------------------------------------------
  // The invariant
  // ---------------------------------------------------------------------

  /** No digest is held twice, by two sessions or by one. */
  ghost predicate DigestsDistinct(sessions: map<Uuid, Row>) {
    && (forall i, j, d {:trigger HoldsAt(sessions, d, i), HoldsAt(sessions, d, j)} |
          HoldsAt(sessions, d, i) && HoldsAt(sessions, d, j) :: i == j)
    && (forall i | i in sessions :: sessions[i].previous != Some(sessions[i].current))
  }

  ghost predicate FamiliesDistinct(sessions: map<Uuid, Row>) {
    forall i, j | i in sessions && j in sessions && sessions[i].family == sessions[j].family :: i == j
  }

  ghost predicate NamesDistinct(users: map<Uuid, User>) {
    forall i, j, n {:trigger NamedAt(users, n, i), NamedAt(users, n, j)} |
      NamedAt(users, n, i) && NamedAt(users, n, j) :: i == j
  }

  ghost predicate Consistent(st: Iam) {
    DigestsDistinct(st.sessions) && FamiliesDistinct(st.sessions) && NamesDistinct(st.users)
  }

  // The digests of a session were issued to its family; the current one is unused, the previous one used.
  ghost predicate Accounted(p: Past, s: Row) {
    && s.current.raw in p.issued && p.issued[s.current.raw] == s.family && s.current.raw !in p.spent
    && (s.previous.Some? ==>
          s.previous.value.raw in p.issued && p.issued[s.previous.value.raw] == s.family
          && s.previous.value.raw in p.spent)
    && (s.family in p.burnt ==> s.status != Active)
  }

  ghost predicate Inv(p: Past) {
    && Consistent(p.st)
    && p.spent <= p.issued.Keys
    && (forall id {:trigger Accounted(p, p.st.sessions[id])} | id in p.st.sessions :: Accounted(p, p.st.sessions[id]))
    && (forall t {:trigger t in p.spent} | t in p.issued && t !in p.spent :: HasCurrent(p.st.sessions, t, p.issued[t]))
  }

  // An unused token is the current token of a session of its family.
  ghost predicate HasCurrent(sessions: map<Uuid, Row>, t: Token, family: Uuid) {
    exists id :: id in sessions && sessions[id].current == Digest(t) && sessions[id].family == family
  }

  // ---------------------------------------------------------------------
  // Every command keeps the invariant
  // ---------------------------------------------------------------------

  lemma FindSessionIs(sessions: map<Uuid, Row>, d: Digest, id: Uuid)
    requires DigestsDistinct(sessions) && HoldsAt(sessions, d, id)
    ensures FindSession(sessions, d) == Some(id)
  {
  }

  lemma HeldIsIssued(p: Past, d: Digest, id: Uuid)
    requires Inv(p) && HoldsAt(p.st.sessions, d, id)
    ensures d.raw in p.issued && p.issued[d.raw] == p.st.sessions[id].family
  {
    assert Accounted(p, p.st.sessions[id]);
  }

  /** Writing one session whose digests no other session holds keeps all digests distinct. */
  lemma WriteKeepsDistinct(sessions: map<Uuid, Row>, id: Uuid, s: Row)
    requires DigestsDistinct(sessions)
    requires s.previous != Some(s.current)
    requires forall j {:trigger sessions[j]} | j in sessions && j != id ::
               !Holds(sessions[j], s.current) && (s.previous.Some? ==> !Holds(sessions[j], s.previous.value))
    ensures DigestsDistinct(sessions[id := s])
  {
    var out := sessions[id := s];
    forall i, j, d | HoldsAt(out, d, i) && HoldsAt(out, d, j)
      ensures i == j
    {
      if i != id && j != id {
        assert HoldsAt(sessions, d, i) && HoldsAt(sessions, d, j);
      }
    }
  }

  lemma LoginKeepsInv(p: Past, c: Command)
    requires Inv(p) && Fresh(p, c) && c.Login? && Step(p.st, c).1.Pair?
    ensures Inv(Advance(p, c))
  {
    var q := Advance(p, c);
    var s := q.st.sessions[c.newSession];
    forall j | j in p.st.sessions && j != c.newSession
      ensures !Holds(p.st.sessions[j], s.current)
    {
      if HoldsAt(p.st.sessions, s.current, j) {
        HeldIsIssued(p, s.current, j);
      }
    }
    WriteKeepsDistinct(p.st.sessions, c.newSession, s);
    assert FamiliesDistinct(q.st.sessions);
    assert NamesDistinct(q.st.users) by {
      forall i, j, n | NamedAt(q.st.users, n, i) && NamedAt(q.st.users, n, j)
        ensures i == j
      {
        assert i in p.st.users && j in p.st.users ==> NamedAt(p.st.users, n, i) && NamedAt(p.st.users, n, j);
        assert FindUser(p.st.users, c.username).None? ==> forall k :: !NamedAt(p.st.users, c.username, k);
        if i in p.st.users {
          assert NamedAt(p.st.users, n, i);
        }
        if j in p.st.users {
          assert NamedAt(p.st.users, n, j);
        }
      }
    }
    forall id | id in q.st.sessions
      ensures Accounted(q, q.st.sessions[id])
    {
      if id != c.newSession {
        assert Accounted(p, p.st.sessions[id]);
      }
    }
    forall t | t in q.issued && t !in q.spent
      ensures HasCurrent(q.st.sessions, t, q.issued[t])
    {
      if t == c.newToken {
        assert c.newSession in q.st.sessions;
      } else {
        var id :| id in p.st.sessions && p.st.sessions[id].current == Digest(t) && p.st.sessions[id].family == p.issued[t];
        assert id in q.st.sessions && q.st.sessions[id] == p.st.sessions[id];
      }
    }
  }

  /** Rotating session id: its current token is used up, and a new one is issued. */
  lemma RotateKeepsInv(p: Past, c: Command)
    requires Inv(p) && Fresh(p, c) && c.Refresh? && Step(p.st, c).1.Pair?
    ensures Inv(Advance(p, c))
  {
    var q := Advance(p, c);
    var id := FindSession(p.st.sessions, Digest(c.token)).value;
    var s := p.st.sessions[id];
    assert Accounted(p, s);
    var r := q.st.sessions[id];
    forall j | j in p.st.sessions && j != id
      ensures !Holds(p.st.sessions[j], r.current) && !Holds(p.st.sessions[j], s.current)
    {
      if HoldsAt(p.st.sessions, r.current, j) {
        HeldIsIssued(p, r.current, j);
      }
      assert HoldsAt(p.st.sessions, s.current, id);
      assert !HoldsAt(p.st.sessions, s.current, j);
    }
    WriteKeepsDistinct(p.st.sessions, id, r);
    forall j | j in q.st.sessions
      ensures Accounted(q, q.st.sessions[j])
    {
      assert Accounted(p, p.st.sessions[j]);
      if j != id {
        assert p.st.sessions[j].current.raw != c.token by {
          assert !Holds(p.st.sessions[j], s.current);
        }
      }
    }
    forall t | t in q.issued && t !in q.spent
      ensures HasCurrent(q.st.sessions, t, q.issued[t])
    {
      if t == c.newToken {
        assert id in q.st.sessions;
      } else {
        var j :| j in p.st.sessions && p.st.sessions[j].current == Digest(t) && p.st.sessions[j].family == p.issued[t];
        assert j in q.st.sessions;
      }
    }
  }

  // Sessions that differ at most in their status.
  ghost predicate SameTokens(a: map<Uuid, Row>, b: map<Uuid, Row>) {
    a.Keys == b.Keys && forall id {:trigger a[id]} {:trigger b[id]} | id in a ::
      a[id].current == b[id].current && a[id].previous == b[id].previous && a[id].family == b[id].family
  }

  lemma SameTokensDistinct(a: map<Uuid, Row>, b: map<Uuid, Row>)
    requires SameTokens(a, b) && DigestsDistinct(a) && FamiliesDistinct(a)
    ensures DigestsDistinct(b) && FamiliesDistinct(b)
  {
    forall i, j, d | HoldsAt(b, d, i) && HoldsAt(b, d, j)
      ensures i == j
    {
      assert HoldsAt(a, d, i) && HoldsAt(a, d, j);
    }
  }

  /** Revoking sessions changes no token. */
  lemma RevokeKeepsInv(p: Past, st: Iam, burnt: set<Uuid>)
    requires Inv(p) && NamesDistinct(st.users) && SameTokens(p.st.sessions, st.sessions)
    requires forall id {:trigger st.sessions[id]} | id in st.sessions && st.sessions[id].status == Active ::
               p.st.sessions[id].status == Active && (st.sessions[id].family in burnt ==> st.sessions[id].family in p.burnt)
    ensures Inv(Past(st, p.issued, p.spent, burnt))
  {
    var q := Past(st, p.issued, p.spent, burnt);
    SameTokensDistinct(p.st.sessions, st.sessions);
    forall id | id in q.st.sessions
      ensures Accounted(q, q.st.sessions[id])
    {
      assert Accounted(p, p.st.sessions[id]);
    }
    forall t | t in q.issued && t !in q.spent
      ensures HasCurrent(q.st.sessions, t, q.issued[t])
    {
      assert HasCurrent(p.st.sessions, t, p.issued[t]);
      var j :| j in p.st.sessions && p.st.sessions[j].current == Digest(t) && p.st.sessions[j].family == p.issued[t];
      assert j in st.sessions && st.sessions[j].current == Digest(t);
    }
  }

  lemma AdvanceKeepsInv(p: Past, c: Command)
    requires Inv(p) && Fresh(p, c)
    ensures Inv(Advance(p, c))
  {
    var q := Advance(p, c);
    if Step(p.st, c).1.Pair? {
      if c.Login? {
        LoginKeepsInv(p, c);
      } else {
        RotateKeepsInv(p, c);
      }
    } else {
      QuietKeepsInv(p, c);
    }
  }

  // A command that hands out no token only revokes sessions.
  lemma QuietKeepsInv(p: Past, c: Command)
    requires Inv(p) && Fresh(p, c) && !Step(p.st, c).1.Pair?
    ensures Inv(Advance(p, c))
  {
    var q := Advance(p, c);
    forall i, j, n | NamedAt(q.st.users, n, i) && NamedAt(q.st.users, n, j)
      ensures i == j
    {
      assert NamedAt(p.st.users, n, i) && NamedAt(p.st.users, n, j);
    }
    RevokeKeepsInv(p, q.st, q.burnt);
  }

  /** The invariant holds after every command of every run. */
  lemma {:induction false} RunKeepsInv(p: Past, cs: seq<Command>, n: nat)
    requires Inv(p) && FreshRun(p, cs) && n <= |cs|
    ensures Inv(After(p, cs, n))
    decreases n
  {
    if n > 0 {
      RunKeepsInv(p, cs, n - 1);
      AdvanceKeepsInv(After(p, cs, n - 1), cs[n - 1]);
    }
  }

  // ---------------------------------------------------------------------
  // What runs promise
  // ---------------------------------------------------------------------

  /** The past only grows, and a token keeps its family. */
  ghost predicate Extends(p: Past, q: Past) {
    && p.spent <= q.spent && p.burnt <= q.burnt
    && forall t {:trigger t in p.issued} | t in p.issued :: t in q.issued && q.issued[t] == p.issued[t]
  }

  lemma AdvanceExtends(p: Past, c: Command)
    requires Fresh(p, c)
    ensures Extends(p, Advance(p, c))
  {
  }

  lemma {:induction false} PastGrows(p: Past, cs: seq<Command>, i: nat, j: nat)
    requires FreshRun(p, cs) && i <= j <= |cs|
    ensures Extends(After(p, cs, i), After(p, cs, j))
    decreases j - i
  {
    if i < j {
      PastGrows(p, cs, i, j - 1);
      AdvanceExtends(After(p, cs, j - 1), cs[j - 1]);
      ExtendsTransitive(After(p, cs, i), After(p, cs, j - 1), After(p, cs, j));
    }
  }

  lemma ExtendsTransitive(p: Past, q: Past, r: Past)
    requires Extends(p, q) && Extends(q, r)
    ensures Extends(p, r)
  {
  }

  ghost predicate LiveFamily(st: Iam, family: Uuid) {
    exists id :: id in st.sessions && st.sessions[id].family == family && st.sessions[id].status == Active
                 && st.sessions[id].user in st.users && st.users[st.sessions[id].user].status == UserActive
  }

  /** Exactly when a refresh succeeds: the token is unused and its session and user are active. */
  lemma RefreshSucceedsIff(p: Past, t: Token, n: Token)
    requires Inv(p)
    ensures Step(p.st, Refresh(t, n)).1.Pair? <==>
            t in p.issued && t !in p.spent && LiveFamily(p.st, p.issued[t])
  {
    var found := FindSession(p.st.sessions, Digest(t));
    if Step(p.st, Refresh(t, n)).1.Pair? {
      HeldIsIssued(p, Digest(t), found.value);
      assert Accounted(p, p.st.sessions[found.value]);
    }
    if t in p.issued && t !in p.spent {
      assert HasCurrent(p.st.sessions, t, p.issued[t]);
      var id :| id in p.st.sessions && p.st.sessions[id].current == Digest(t) && p.st.sessions[id].family == p.issued[t];
      assert HoldsAt(p.st.sessions, Digest(t), id);
      FindSessionIs(p.st.sessions, Digest(t), id);
      assert p.st.sessions[id].previous != Some(Digest(t));
    }
  }

  // ---------------------------------------------------------------------
  // What each command does
  // ---------------------------------------------------------------------

  // The active session that has the token as its current or its previous one.
  ghost predicate LiveHolder(st: Iam, t: Token, id: Uuid) {
    && id in st.sessions && st.sessions[id].status == Active
    && (st.sessions[id].current.raw == t || (st.sessions[id].previous.Some? && st.sessions[id].previous.value.raw == t))
  }

  ghost predicate UserLives(st: Iam, user: Uuid) { user in st.users && st.users[user].status == UserActive }

  // Every active session of the family is revoked for the reason, and no other session is touched.
  ghost predicate FamilyEnded(before: map<Uuid, Row>, now: map<Uuid, Row>, family: Uuid, reason: string) {
    && now.Keys == before.Keys
    && forall id {:trigger now[id]} | id in before ::
         if before[id].family == family && before[id].status == Active then
           now[id] == Row(before[id].user, before[id].family, before[id].current, before[id].previous, Revoked, reason,
                          before[id].version + 1)
         else now[id] == before[id]
  }

  /**
   What a refresh does, by the session that has the token: the used token is replaced by the new one, a token used up
   before ends the family, and an inactive user's session is ended; in any other case nothing happens.
   */
  lemma RefreshEffect(p: Past, t: Token, n: Token, id: Uuid)
    requires Inv(p) && LiveHolder(p.st, t, id)
    ensures var (st, out) := Step(p.st, Refresh(t, n));
            var s := p.st.sessions[id];
            if s.current.raw != t then
              && out == Reused(s.family) && FamilyEnded(p.st.sessions, st.sessions, s.family, "refresh_token_reused")
              && st.users == p.st.users && st.audit == p.st.audit + [Audit("identity.refresh_reuse", s.user, "denied")]
            else if !UserLives(p.st, s.user) then
              && out == Denied
              && st == p.st.(sessions := p.st.sessions[id :=
                         Row(s.user, s.family, s.current, s.previous, Revoked, "user_inactive", s.version + 1)])
            else
              && out == Pair(id, s.family, n)
              && st == p.st.(sessions := p.st.sessions[id :=
                         Row(s.user, s.family, Digest(n), Some(Digest(t)), Active, s.reason, s.version + 1)])
  {
    assert HoldsAt(p.st.sessions, Digest(t), id);
    FindSessionIs(p.st.sessions, Digest(t), id);
  }

  lemma RevokeFamilyEnds(sessions: map<Uuid, Row>, family: Uuid, reason: string)
    ensures FamilyEnded(sessions, RevokeFamily(sessions, family, reason), family, reason)
  {
  }

  /** A user whose status is changed keeps the rest; while it is not active, no session of it is refreshed. */
  lemma SetUserEffect(p: Past, user: Uuid, status: UserStatus, t: Token, n: Token, id: Uuid)
    requires Inv(p) && user in p.st.users
    ensures Step(p.st, SetUser(user, status)) ==
            (p.st.(users := p.st.users[user := User(p.st.users[user].username, status)]), Done)
    ensures LiveHolder(p.st, t, id) && p.st.sessions[id].user == user && status != UserActive ==>
              !Step(Advance(p, SetUser(user, status)).st, Refresh(t, n)).1.Pair?
  {
    if LiveHolder(p.st, t, id) && p.st.sessions[id].user == user && status != UserActive {
      AdvanceKeepsInv(p, SetUser(user, status));
      RefreshEffect(Advance(p, SetUser(user, status)), t, n, id);
    }
  }

  lemma RefreshOfNothing(p: Past, t: Token, n: Token)
    requires Inv(p) && forall id :: !LiveHolder(p.st, t, id)
    ensures Step(p.st, Refresh(t, n)) == (p.st, Denied)
  {
    var found := FindSession(p.st.sessions, Digest(t));
    if found.Some? {
      assert HoldsAt(p.st.sessions, Digest(t), found.value);
      assert !LiveHolder(p.st, t, found.value);
    }
  }

  /** Logout ends the session that has the token, as its current or its previous one, and nothing else. */
  lemma LogoutEffect(p: Past, t: Token)
    requires Inv(p)
    ensures Step(p.st, Logout(t)).1 == Done
    ensures (forall id :: !LiveHolder(p.st, t, id)) ==> Step(p.st, Logout(t)).0 == p.st
    ensures forall id | LiveHolder(p.st, t, id) ::
              var s := p.st.sessions[id];
              Step(p.st, Logout(t)).0 == p.st.(sessions := p.st.sessions[id :=
                Row(s.user, s.family, s.current, s.previous, Revoked, "logout", s.version + 1)])
  {
    forall id: Uuid | LiveHolder(p.st, t, id)
      ensures FindSession(p.st.sessions, Digest(t)) == Some(id)
    {
      assert HoldsAt(p.st.sessions, Digest(t), id);
      FindSessionIs(p.st.sessions, Digest(t), id);
    }
    var found := FindSession(p.st.sessions, Digest(t));
    if found.Some? {
      assert HoldsAt(p.st.sessions, Digest(t), found.value);
      assert p.st.sessions[found.value].status == Active ==> LiveHolder(p.st, t, found.value);
    }
  }

  /** Login: the user of that name, or a new active one, gets an active session in a family of its own. */
  lemma LoginEffect(p: Past, c: Command)
    requires Inv(p) && c.Login? && Fresh(p, c)
    ensures var (st, out) := Step(p.st, c);
            && (out.Pair? <==> c.authenticated && forall id | NamedAt(p.st.users, c.username, id) :: UserLives(p.st, id))
            && (!out.Pair? ==> out == Denied && st == p.st)
            && (out.Pair? ==>
                  && out == Pair(c.newSession, c.newFamily, c.newToken)
                  && c.newSession in st.sessions
                  && var user := st.sessions[c.newSession].user;
                  && NamedAt(st.users, c.username, user)
                  && (if exists id :: NamedAt(p.st.users, c.username, id) then st.users == p.st.users
                      else user == c.newUser && st.users == p.st.users[c.newUser := User(c.username, UserActive)])
                  && st.sessions == p.st.sessions[c.newSession :=
                       Row(user, c.newFamily, Digest(c.newToken), None, Active, "", 1)]
                  && st.audit == p.st.audit + [Audit("identity.login", user, "success")])
  {
    if id: Uuid :| NamedAt(p.st.users, c.username, id) {
      assert FindUser(p.st.users, c.username) == Some(id);
    }
  }

  /** A session that has ended stays ended. */
  lemma StepStaysEnded(p: Past, c: Command, id: Uuid)
    requires Fresh(p, c) && id in p.st.sessions && p.st.sessions[id].status != Active
    ensures id in Advance(p, c).st.sessions && Advance(p, c).st.sessions[id].status != Active
    ensures Advance(p, c).st.sessions[id].family == p.st.sessions[id].family
  {
  }

  lemma {:induction false} StaysEnded(p: Past, cs: seq<Command>, i: nat, j: nat, id: Uuid)
    requires FreshRun(p, cs) && i <= j <= |cs|
    requires id in After(p, cs, i).st.sessions && After(p, cs, i).st.sessions[id].status != Active
    ensures id in After(p, cs, j).st.sessions && After(p, cs, j).st.sessions[id].status != Active
    ensures After(p, cs, j).st.sessions[id].family == After(p, cs, i).st.sessions[id].family
    decreases j - i
  {
    if i < j {
      StaysEnded(p, cs, i, j - 1, id);
      StepStaysEnded(After(p, cs, j - 1), cs[j - 1], id);
    }
  }

  /** After a logout no token of the session's family, issued before or since, ever succeeds again. */
  lemma LogoutIsFinal(p: Past, cs: seq<Command>, i: nat, j: nat, id: Uuid)
    requires Inv(p) && FreshRun(p, cs) && i < j < |cs| && cs[i].Logout? && cs[j].Refresh?
    requires LiveHolder(After(p, cs, i).st, cs[i].token, id)
    requires cs[j].token in After(p, cs, j).issued
    requires After(p, cs, j).issued[cs[j].token] == After(p, cs, i).st.sessions[id].family
    ensures !OutcomeAt(p, cs, j).Pair?
  {
    LoggedOut(p, cs, i, j, id);
    RunKeepsInv(p, cs, j);
    EndedRefusesAll(After(p, cs, j), cs[j].token, cs[j].newToken, id);
  }

  lemma LoggedOut(p: Past, cs: seq<Command>, i: nat, j: nat, id: Uuid)
    requires Inv(p) && FreshRun(p, cs) && i < j <= |cs| && cs[i].Logout? && LiveHolder(After(p, cs, i).st, cs[i].token, id)
    ensures id in After(p, cs, j).st.sessions && After(p, cs, j).st.sessions[id].status != Active
    ensures After(p, cs, j).st.sessions[id].family == After(p, cs, i).st.sessions[id].family
  {
    RunKeepsInv(p, cs, i);
    LogoutEnds(After(p, cs, i), cs[i].token, id);
    assert After(p, cs, i + 1) == Advance(After(p, cs, i), cs[i]);
    StaysEnded(p, cs, i + 1, j, id);
  }

  lemma LogoutEnds(p: Past, t: Token, id: Uuid)
    requires Inv(p) && LiveHolder(p.st, t, id)
    ensures var q := Advance(p, Logout(t)); id in q.st.sessions && q.st.sessions[id].status != Active
    ensures Advance(p, Logout(t)).st.sessions[id].family == p.st.sessions[id].family
  {
    LogoutEffect(p, t);
  }

  // No token of an ended session's family succeeds.
  lemma EndedRefusesAll(p: Past, t: Token, n: Token, id: Uuid)
    requires Inv(p) && id in p.st.sessions && p.st.sessions[id].status != Active
    requires t in p.issued && p.issued[t] == p.st.sessions[id].family
    ensures !Step(p.st, Refresh(t, n)).1.Pair?
  {
    RefreshSucceedsIff(p, t, n);
  }

  /** A refresh token succeeds at most once in any run. */
  lemma SucceedsAtMostOnce(p: Past, cs: seq<Command>, i: nat, j: nat)
    requires Inv(p) && FreshRun(p, cs) && i < j < |cs|
    requires cs[i].Refresh? && cs[j].Refresh? && cs[i].token == cs[j].token
    requires OutcomeAt(p, cs, i).Pair?
    ensures !OutcomeAt(p, cs, j).Pair?
  {
    PastGrows(p, cs, i + 1, j);
    RunKeepsInv(p, cs, j);
    RefreshSucceedsIff(After(p, cs, j), cs[j].token, cs[j].newToken);
  }

  lemma BurntTokenFails(p: Past, t: Token, n: Token, family: Uuid)
    requires Inv(p) && family in p.burnt && (t in p.issued ==> p.issued[t] == family)
    ensures !Step(p.st, Refresh(t, n)).1.Pair?
  {
    RefreshSucceedsIff(p, t, n);
    forall id | id in p.st.sessions && p.st.sessions[id].family == family
      ensures p.st.sessions[id].status != Active
    {
      assert Accounted(p, p.st.sessions[id]);
    }
  }

  // A token belongs, at any time, to the family it is issued to, or is not issued yet.
  lemma TokenOfFamily(p: Past, cs: seq<Command>, j: nat, k: nat)
    requires FreshRun(p, cs) && j < |cs| && k < |cs| && OutcomeAt(p, cs, k).Pair?
    ensures var t := OutcomeAt(p, cs, k).token;
            t in After(p, cs, j).issued ==> After(p, cs, j).issued[t] == OutcomeAt(p, cs, k).family
  {
    var t := OutcomeAt(p, cs, k).token;
    if k < j {
      PastGrows(p, cs, k + 1, j);
      assert t in After(p, cs, k + 1).issued;
    } else {
      PastGrows(p, cs, j, k);
      assert Fresh(After(p, cs, k), cs[k]) && t !in After(p, cs, k).issued;
    }
  }

  /** Once a family is caught reusing a token, no token ever issued to it succeeds again. */
  lemma BurntFamilyIsDead(p: Past, cs: seq<Command>, i: nat, j: nat, k: nat)
    requires Inv(p) && FreshRun(p, cs) && i < j < |cs| && k < |cs|
    requires OutcomeAt(p, cs, i).Reused?
    requires OutcomeAt(p, cs, k).Pair? && OutcomeAt(p, cs, k).family == OutcomeAt(p, cs, i).family
    requires cs[j].Refresh? && cs[j].token == OutcomeAt(p, cs, k).token
    ensures !OutcomeAt(p, cs, j).Pair?
  {
    PastGrows(p, cs, i + 1, j);
    RunKeepsInv(p, cs, j);
    TokenOfFamily(p, cs, j, k);
    BurntTokenFails(After(p, cs, j), cs[j].token, cs[j].newToken, OutcomeAt(p, cs, i).family);
  }

  /** Reuse is caught exactly for the token that the last rotation of an active session used up. */
  lemma ReuseCaughtIff(p: Past, t: Token, n: Token)
    requires Inv(p)
    ensures Step(p.st, Refresh(t, n)).1.Reused? <==>
            exists id :: id in p.st.sessions && p.st.sessions[id].status == Active
                         && p.st.sessions[id].previous == Some(Digest(t))
    ensures Step(p.st, Refresh(t, n)).1.Reused? ==> t in p.spent
  {
    if id :| id in p.st.sessions && p.st.sessions[id].status == Active && p.st.sessions[id].previous == Some(Digest(t)) {
      assert HoldsAt(p.st.sessions, Digest(t), id);
      FindSessionIs(p.st.sessions, Digest(t), id);
    }
    if Step(p.st, Refresh(t, n)).1.Reused? {
      assert Accounted(p, p.st.sessions[FindSession(p.st.sessions, Digest(t)).value]);
    }
  }

  /** A token used up two or more rotations ago is refused without any trace: its family lives on. */
  lemma OlderTokensGoUnnoticed(p: Past, t: Token, n: Token)
    requires Inv(p) && t in p.spent
    requires forall id | id in p.st.sessions :: p.st.sessions[id].previous != Some(Digest(t))
    ensures Step(p.st, Refresh(t, n)) == (p.st, Denied)
  {
    forall id | id in p.st.sessions
      ensures !HoldsAt(p.st.sessions, Digest(t), id)
    {
      assert Accounted(p, p.st.sessions[id]);
    }
  }

  // A store of one active session.
  function OneSession(user: Uuid, session: Uuid, family: Uuid, name: string, current: Token, previous: Option<Digest>, version: nat)
    : Iam
  {
    Iam(map[user := User(name, UserActive)], map[session := Row(user, family, Digest(current), previous, Active, "", version)],
        [Audit("identity.login", user, "success")])
  }

  lemma OneSessionRotates(user: Uuid, session: Uuid, family: Uuid, name: string, t: Token, previous: Option<Digest>, version: nat,
                          n: Token)
    requires previous != Some(Digest(t))
    ensures Step(OneSession(user, session, family, name, t, previous, version), Refresh(t, n)) ==
            (OneSession(user, session, family, name, n, Some(Digest(t)), version + 1), Pair(session, family, n))
  {
    var st := OneSession(user, session, family, name, t, previous, version);
    assert HoldsAt(st.sessions, Digest(t), session);
    assert FindSession(st.sessions, Digest(t)) == Some(session);
    var row := Rotated(st.sessions[session], Digest(n));
    assert st.sessions[session := row] == map[session := row];
  }

  lemma FirstLogin(user: Uuid, session: Uuid, family: Uuid, name: string, t: Token)
    ensures Advance(START, Login(true, name, user, session, family, t)) ==
            Past(OneSession(user, session, family, name, t, None, 1), map[t := family], {}, {})
  {
    var st := START.st;
    assert forall id :: !NamedAt(st.users, name, id);
    assert FindUser(st.users, name) == None;
    var users := st.users[user := User(name, UserActive)];
    assert users == map[user := User(name, UserActive)];
    var row := Row(user, family, Digest(t), None, Active, "", 1);
    assert st.sessions[session := row] == map[session := row];
    assert st.audit + [Audit("identity.login", user, "success")] == [Audit("identity.login", user, "success")];
    assert START.issued[t := family] == map[t := family];
  }

  lemma RotationAdvances(user: Uuid, session: Uuid, family: Uuid, name: string, t: Token, previous: Option<Digest>, version: nat,
                         issued: map<Token, Uuid>, spent: set<Token>, n: Token)
    requires previous != Some(Digest(t))
    ensures Advance(Past(OneSession(user, session, family, name, t, previous, version), issued, spent, {}), Refresh(t, n)) ==
            Past(OneSession(user, session, family, name, n, Some(Digest(t)), version + 1), issued[n := family], spent + {t}, {})
  {
    OneSessionRotates(user, session, family, name, t, previous, version, n);
  }

  // After a login and two refreshes.
  function Twice(user: Uuid, session: Uuid, family: Uuid, name: string, t0: Token, t1: Token, t2: Token): Past {
    Past(OneSession(user, session, family, name, t2, Some(Digest(t1)), 3), map[t0 := family][t1 := family][t2 := family], {t0, t1}, {})
  }

  lemma TwiceIsReached(user: Uuid, session: Uuid, family: Uuid, name: string, t0: Token, t1: Token, t2: Token)
    requires t0 != t1 && t0 != t2 && t1 != t2
    ensures var p1 := Advance(START, Login(true, name, user, session, family, t0));
            var p2 := Advance(p1, Refresh(t0, t1));
            && Fresh(START, Login(true, name, user, session, family, t0)) && Fresh(p1, Refresh(t0, t1)) && Fresh(p2, Refresh(t1, t2))
            && Advance(p2, Refresh(t1, t2)) == Twice(user, session, family, name, t0, t1, t2)
    ensures Inv(Twice(user, session, family, name, t0, t1, t2))
  {
    var login := Login(true, name, user, session, family, t0);
    FirstLogin(user, session, family, name, t0);
    RotationAdvances(user, session, family, name, t0, None, 1, map[t0 := family], {}, t1);
    RotationAdvances(user, session, family, name, t1, Some(Digest(t0)), 2, map[t0 := family][t1 := family], {t0}, t2);
    AdvanceKeepsInv(START, login);
    AdvanceKeepsInv(Advance(START, login), Refresh(t0, t1));
    AdvanceKeepsInv(Advance(Advance(START, login), Refresh(t0, t1)), Refresh(t1, t2));
    assert {} + {t0} == {t0} && {t0} + {t1} == {t0, t1};
  }

  /** So a token used up before the last rotation is presented again, nobody notices, and its family works on. */
  lemma TwoRotationsForget(user: Uuid, session: Uuid, family: Uuid, name: string, t0: Token, t1: Token, t2: Token, t3: Token)
    requires t0 != t1 && t0 != t2 && t1 != t2
    ensures var p := Twice(user, session, family, name, t0, t1, t2);
            && t0 in p.spent && Step(p.st, Refresh(t0, t3)) == (p.st, Denied)
            && Step(p.st, Refresh(t2, t3)).1 == Pair(session, family, t3)
  {
    TwiceIsReached(user, session, family, name, t0, t1, t2);
    OlderTokensGoUnnoticed(Twice(user, session, family, name, t0, t1, t2), t0, t3);
    OneSessionRotates(user, session, family, name, t2, Some(Digest(t1)), 3, t3);
  }

  /** Presenting a token again right after it succeeded ends its family. */
  lemma SecondUseEndsFamily(p: Past, t: Token, n: Token, m: Token)
    requires Inv(p) && Fresh(p, Refresh(t, n)) && Step(p.st, Refresh(t, n)).1.Pair?
    ensures var q := Advance(p, Refresh(t, n));
            Step(q.st, Refresh(t, m)).1 == Reused(Step(p.st, Refresh(t, n)).1.family)
  {
    var q := Advance(p, Refresh(t, n));
    AdvanceKeepsInv(p, Refresh(t, n));
    var id := FindSession(p.st.sessions, Digest(t)).value;
    assert HoldsAt(q.st.sessions, Digest(t), id);
    FindSessionIs(q.st.sessions, Digest(t), id);
  }

  // ---------------------------------------------------------------------
  // The service and its in-memory repository
  // ---------------------------------------------------------------------

  class Session {
    const id: Uuid
    const userId: Uuid
    const familyId: Uuid
    var currentHash: Digest
    var previousHash: Option<Digest>
    var status: SessionStatus
    var revokedReason: string
    var version: nat

    function Value(): Row
      reads this
    {
      Row(userId, familyId, currentHash, previousHash, status, revokedReason, version)
    }

    constructor (id: Uuid, userId: Uuid, familyId: Uuid, refreshHash: Digest)
      ensures this.id == id && Value() == Row(userId, familyId, refreshHash, None, Active, "", 1)
    {
      this.id, this.userId, this.familyId := id, userId, familyId;
      currentHash, previousHash, status, revokedReason, version := refreshHash, None, Active, "", 1;
    }

    /** Replace the refresh digest; only an active session can do so. */
    method Rotate(newHash: Digest) returns (ok: bool)
      modifies this
      ensures ok <==> old(status) == Active
      ensures Value() == if ok then Rotated(old(Value()), newHash) else old(Value())
    {
      if status != Active {
        return false;
      }
      previousHash := Some(currentHash);
      currentHash := newHash;
      version := version + 1;
      return true;
    }

    method Revoke(reason: string)
      modifies this
      ensures Value() == RevokedRow(old(Value()), reason)
    {
      status, revokedReason, version := Revoked, reason, version + 1;
    }
  }

  class InMemoryIamRepository {
    var users: map<Uuid, User>
    var sessions: map<Uuid, Session>

    ghost predicate Keyed()
      reads this, sessions.Values
    {
      forall k {:trigger sessions[k]} | k in sessions :: sessions[k].id == k
    }

    ghost function Rows(): map<Uuid, Row>
      reads this, sessions.Values
    {
      map k | k in sessions :: sessions[k].Value()
    }

    constructor ()
      ensures users == map[] && sessions == map[]
    {
      users, sessions := map[], map[];
    }

    method FindSessionHash(digest: Digest) returns (found: Session?)
      requires Keyed() && DigestsDistinct(Rows())
      ensures found == null <==> FindSession(Rows(), digest).None?
      ensures found != null ==> FindSession(Rows(), digest) == Some(found.id)
                                && found.id in sessions && sessions[found.id] == found
    {
      if k :| k in sessions && (sessions[k].currentHash == digest || sessions[k].previousHash == Some(digest)) {
        assert HoldsAt(Rows(), digest, k);
        FindSessionIs(Rows(), digest, k);
        return sessions[k];
      }
      assert forall k :: !HoldsAt(Rows(), digest, k);
      return null;
    }

    method GetUserByUsername(name: string) returns (found: Option<Uuid>)
      requires NamesDistinct(users)
      ensures found == FindUser(users, name)
    {
      if k :| k in users && users[k].username == name {
        assert NamedAt(users, name, k);
        return Some(k);
      }
      assert forall k :: !NamedAt(users, name, k);
      return None;
    }

    method SaveSession(session: Session)
      requires Keyed()
      modifies this`sessions
      ensures sessions == old(sessions)[session.id := session] && Keyed()
    {
      sessions := sessions[session.id := session];
    }

    method FindOrCreateUser(name: string, newUser: Uuid) returns (user: Uuid)
      requires NamesDistinct(users)
      modifies this`users
      ensures user == (if FindUser(old(users), name).Some? then FindUser(old(users), name).value else newUser)
      ensures users == (if FindUser(old(users), name).Some? then old(users)
                        else old(users)[newUser := User(name, UserActive)])
    {
      var known := GetUserByUsername(name);
      if known.Some? {
        return known.value;
      }
      users := users[newUser := User(name, UserActive)];
      return newUser;
    }

    /** Rotate one session and save it; no other row changes. */
    method RotateAndSave(session: Session, newHash: Digest)
      requires Keyed() && session.id in sessions && sessions[session.id] == session && session.status == Active
      modifies this`sessions, session
      ensures Keyed() && sessions == old(sessions)
      ensures Rows() == old(Rows()[session.id := Rotated(session.Value(), newHash)])
    {
      var ok := session.Rotate(newHash);
      SaveSession(session);
      assert Rows() == old(Rows()[session.id := Rotated(session.Value(), newHash)]);
    }

    /** Revoke one session; no other row changes. */
    method RevokeOne(session: Session, reason: string)
      requires Keyed() && session.id in sessions && sessions[session.id] == session
      modifies session
      ensures Keyed() && Rows() == old(Rows()[session.id := RevokedRow(session.Value(), reason)])
    {
      session.Revoke(reason);
      assert Rows() == old(Rows()[session.id := RevokedRow(session.Value(), reason)]);
    }

    /** Save a new session; no other row changes. */
    method Open(id: Uuid, user: Uuid, family: Uuid, refreshHash: Digest)
      requires Keyed() && id !in sessions
      modifies this`sessions
      ensures Keyed() && fresh(sessions.Values - old(sessions.Values))
      ensures Rows() == old(Rows())[id := Row(user, family, refreshHash, None, Active, "", 1)]
    {
      var session := new Session(id, user, family, refreshHash);
      SaveSession(session);
      assert Rows() == old(Rows())[id := session.Value()];
    }

    method RevokeMember(k: Uuid, family: Uuid, reason: string) returns (revoked: bool)
      requires Keyed() && k in sessions
      modifies sessions[k]
      ensures Keyed() && forall j {:trigger sessions[j]} | j in sessions && j != k :: sessions[j].Value() == old(sessions[j].Value())
      ensures sessions[k].Value() == RevokeFamily(old(Rows()), family, reason)[k]
    {
      var session := sessions[k];
      revoked := session.familyId == family && session.status == Active;
      if revoked {
        session.Revoke(reason);
      }
    }

    /** Revoke every active session of the family. */
    method DoRevokeFamily(family: Uuid, reason: string) returns (count: nat)
      requires Keyed()
      modifies sessions.Values
      ensures Keyed() && Rows() == RevokeFamily(old(Rows()), family, reason)
    {
      count := 0;
      var todo := sessions.Keys;
      while todo != {}
        invariant todo <= sessions.Keys && Keyed()
        invariant forall k {:trigger sessions[k]} | k in todo :: sessions[k].Value() == old(sessions[k].Value())
        invariant forall k {:trigger sessions[k]} | k in sessions && k !in todo ::
                    sessions[k].Value() == RevokeFamily(old(Rows()), family, reason)[k]
        decreases todo
      {
        var k :| k in todo;
        var revoked := RevokeMember(k, family, reason);
        count := count + if revoked then 1 else 0;
        todo := todo - {k};
      }
      assert Rows() == RevokeFamily(old(Rows()), family, reason);
    }
  }

  class SessionService {
    const repo: InMemoryIamRepository
    var auditEvents: seq<Audit>

    constructor (repo: InMemoryIamRepository)
      ensures this.repo == repo && auditEvents == []
    {
      this.repo := repo;
      auditEvents := [];
    }

    ghost function View(): Iam
      reads this, repo, repo.sessions.Values
    {
      Iam(repo.users, repo.Rows(), auditEvents)
    }

    method CatchReuse(session: Session)
      requires repo.Keyed() && session.id in repo.sessions && repo.sessions[session.id] == session
      modifies this, repo.sessions.Values
      ensures repo.Keyed()
      ensures View() == Iam(old(View()).users, RevokeFamily(old(View()).sessions, session.familyId, "refresh_token_reused"),
                            old(View()).audit + [Audit("identity.refresh_reuse", session.userId, "denied")])
    {
      auditEvents := auditEvents + [Audit("identity.refresh_reuse", session.userId, "denied")];
      var n := repo.DoRevokeFamily(session.familyId, "refresh_token_reused");
    }

    /** Rotate the refresh token, or catch its reuse and revoke the family. */
    method DoRefresh(token: Token, newToken: Token) returns (r: Outcome)
      requires repo.Keyed() && DigestsDistinct(repo.Rows())
      modifies this, repo, repo.sessions.Values
      ensures repo.Keyed() && fresh(repo.sessions.Values - old(repo.sessions.Values))
      ensures View() == Step(old(View()), Refresh(token, newToken)).0
      ensures r == Step(old(View()), Refresh(token, newToken)).1
    {
      ghost var before := View();
      ghost var want := StepRefresh(before, token, newToken);
      var digest := Digest(token);
      var session := repo.FindSessionHash(digest);
      if session == null || session.status != Active {
        return Denied;
      }
      if session.previousHash == Some(digest) {
        assert want.1 == Reused(session.familyId);
        CatchReuse(session);
        return Reused(session.familyId);
      }
      if session.currentHash != digest {
        return Denied;
      }
      if session.userId !in repo.users || repo.users[session.userId].status != UserActive {
        assert want == (before.(sessions := before.sessions[session.id := RevokedRow(session.Value(), "user_inactive")]), Denied);
        repo.RevokeOne(session, "user_inactive");
        return Denied;
      }
      assert want == (before.(sessions := before.sessions[session.id := Rotated(session.Value(), Digest(newToken))]),
                      Pair(session.id, session.familyId, newToken));
      repo.RotateAndSave(session, Digest(newToken));
      return Pair(session.id, session.familyId, newToken);
    }

    method DoLogout(token: Token)
      requires repo.Keyed() && DigestsDistinct(repo.Rows())
      modifies this, repo, repo.sessions.Values
      ensures repo.Keyed() && View() == Step(old(View()), Logout(token)).0
    {
      var session := repo.FindSessionHash(Digest(token));
      if session != null && session.status == Active {
        repo.RevokeOne(session, "logout");
        repo.SaveSession(session);
      }
    }

    method DoLogin(authenticated: bool, username: string, newUser: Uuid, newSession: Uuid, newFamily: Uuid,
                   newToken: Token)
      returns (r: Outcome)
      requires repo.Keyed() && NamesDistinct(repo.users) && newSession !in repo.sessions
      modifies this, repo
      ensures repo.Keyed() && fresh(repo.sessions.Values - old(repo.sessions.Values))
      ensures (View(), r) ==
              StepLogin(old(View()), Login(authenticated, username, newUser, newSession, newFamily, newToken))
    {
      if !authenticated {
        return Denied;
      }
      var user := repo.FindOrCreateUser(username, newUser);
      if repo.users[user].status != UserActive {
        return Denied;
      }
      ghost var rows := repo.Rows();
      auditEvents := auditEvents + [Audit("identity.login", user, "success")];
      assert repo.Rows() == rows == old(repo.Rows());
      repo.Open(newSession, user, newFamily, Digest(newToken));
      return Pair(newSession, newFamily, newToken);
    }
  }
}

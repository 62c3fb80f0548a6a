/**
 The gateway's single-flight refresh joined to IAM. Requests are threads of a state machine
 whose steps are the lock-protected blocks of RefreshSingleFlight.run, the operation between
 them (one call of IAM's refresh, answered or not) and whatever else happens at IAM meanwhile.
 */
module RefreshFlights {
  import opened Options
  import Iam = IamSessions

  datatype NewPair = NewPair(session: Uuid, family: Uuid, token: Iam.Token)

  datatype Flight = Flight(key: Iam.Token, leader: nat, complete: bool, result: Option<NewPair>)

  datatype Phase =
    | Leading(flight: nat)                                // the operation is running
    | Finished(flight: nat, result: Option<NewPair>)      // it returned, nothing is published yet
    | Raised(flight: nat)                                 // it raised
    | Published(flight: nat, result: Option<NewPair>)     // waiters can see the result, the key is still taken
    | Waiting(flight: nat)
    | Returned(flight: nat, result: Option<NewPair>)
    | Failed(flight: nat)

  // One refresh that reached IAM; a direct one belongs to no flight.
  datatype Call = Call(flight: Option<nat>, token: Iam.Token, outcome: Iam.Outcome)

  datatype State = State(flights: map<Iam.Token, nat>, table: seq<Flight>, threads: map<nat, Phase>,
                         iam: Iam.Past, calls: seq<Call>)

  datatype Action =
    | Enter(thread: nat, key: Iam.Token)
    | Operate(thread: nat, newToken: Iam.Token)
    | Crash(thread: nat, reached: bool, newToken: Iam.Token)   // no answer, whether or not IAM got the call
    | Publish(thread: nat)
    | Pop(thread: nat)
    | Wake(thread: nat)
    | Timeout(thread: nat)
    | Elsewhere(command: Iam.Command)

  const START := State(map[], [], map[], Iam.START, [])

  predicate Leads(p: Phase) { p.Leading? || p.Finished? || p.Raised? || p.Published? }

  ghost predicate Enabled(g: State, a: Action) {
    match a
    case Enter(t, _) => t !in g.threads
    case Operate(t, n) => t in g.threads && g.threads[t].Leading? && n !in g.iam.issued
    case Crash(t, _, n) => t in g.threads && g.threads[t].Leading? && n !in g.iam.issued
    case Publish(t) => t in g.threads && g.threads[t].Finished?
    case Pop(t) => t in g.threads && (g.threads[t].Published? || g.threads[t].Raised?)
    case Wake(t) => t in g.threads && g.threads[t].Waiting? && g.threads[t].flight < |g.table|
                    && g.table[g.threads[t].flight].complete
    case Timeout(t) => t in g.threads && g.threads[t].Waiting?
    case Elsewhere(c) => Iam.Fresh(g.iam, c)
  }

  // IAM's answer as the operation returns it: any refusal becomes None.
  function Answer(out: Iam.Outcome): Option<NewPair> {
    if out.Pair? then Some(NewPair(out.session, out.family, out.token)) else None
  }

  ghost function CallIam(g: State, caller: Option<nat>, c: Iam.Command): State
    requires c.Refresh?
  {
    g.(iam := Iam.Advance(g.iam, c), calls := g.calls + [Call(caller, c.token, Iam.Step(g.iam.st, c).1)])
  }

  ghost function KeyOf(g: State, f: nat): Iam.Token { if f < |g.table| then g.table[f].key else "" }

  ghost function Next(g: State, a: Action): State
    requires Enabled(g, a)
  {
    match a
    case Enter(t, key) =>
      if key in g.flights then g.(threads := g.threads[t := Waiting(g.flights[key])])
      else
        g.(flights := g.flights[key := |g.table|], table := g.table + [Flight(key, t, false, None)],
           threads := g.threads[t := Leading(|g.table|)])
    case Operate(t, n) =>
      var f := g.threads[t].flight;
      var token := KeyOf(g, f);
      if token == "" then g.(threads := g.threads[t := Finished(f, None)])
      else
        CallIam(g, Some(f), Iam.Refresh(token, n)).(
          threads := g.threads[t := Finished(f, Answer(Iam.Step(g.iam.st, Iam.Refresh(token, n)).1))])
    case Crash(t, reached, n) =>
      var f := g.threads[t].flight;
      var token := KeyOf(g, f);
      (if reached && token != "" then CallIam(g, Some(f), Iam.Refresh(token, n)) else g).(
        threads := g.threads[t := Raised(f)])
    case Publish(t) =>
      var f, r := g.threads[t].flight, g.threads[t].result;
      g.(table := if f < |g.table| then g.table[f := g.table[f].(complete := true, result := r)] else g.table,
         threads := g.threads[t := Published(f, r)])
    case Pop(t) =>
      var f := g.threads[t].flight;
      g.(flights := g.flights - {KeyOf(g, f)},
         threads := g.threads[t := if g.threads[t].Raised? then Failed(f) else Returned(f, g.threads[t].result)])
    case Wake(t) =>
      var f := g.threads[t].flight;
      g.(threads := g.threads[t := Returned(f, g.table[f].result)])
    case Timeout(t) =>
      g.(threads := g.threads[t := Returned(g.threads[t].flight, None)])
    case Elsewhere(c) =>
      if c.Refresh? then CallIam(g, None, c) else g.(iam := Iam.Advance(g.iam, c))
  }

  // ---------------------------------------------------------------------
  // Runs
  // ---------------------------------------------------------------------

  ghost function After(run: seq<Action>, n: nat): State
    requires n <= |run|
    decreases n
  {
    if n == 0 then START
    else
      var g := After(run, n - 1);
      if Enabled(g, run[n - 1]) then Next(g, run[n - 1]) else g
  }

  /** A state that some interleaving of requests reaches. */
  ghost predicate Reachable(g: State) {
    exists run, n: nat | n <= |run| :: After(run, n) == g
  }

  // ---------------------------------------------------------------------
  // The invariant
  // ---------------------------------------------------------------------

  // What holds of one thread in each phase.
  ghost predicate ThreadOk(g: State, t: nat)
    requires t in g.threads
  {
    var p := g.threads[t];
    && p.flight < |g.table|
    && (Leads(p) ==> g.table[p.flight].leader == t && g.table[p.flight].key in g.flights
                     && g.flights[g.table[p.flight].key] == p.flight)
    && (p.Leading? || p.Finished? || p.Raised? ==> !g.table[p.flight].complete)
    && (p.Leading? ==> !Called(g, p.flight))
    && (p.Published? ==> g.table[p.flight].complete && g.table[p.flight].result == p.result)
    && (p.Returned? && (p.result.Some? || g.table[p.flight].leader == t) ==>
          g.table[p.flight].complete && g.table[p.flight].result == p.result)
    && (p.Failed? ==> g.table[p.flight].leader == t && !g.table[p.flight].complete)
    && (p.Finished? ==> Obtained(g, p.flight, p.result))
  }

  ghost predicate Called(g: State, f: nat) {
    exists i :: 0 <= i < |g.calls| && g.calls[i].flight == Some(f)
  }

  // The result is what the flight's call of IAM returned; only an empty token is not sent there.
  ghost predicate Obtained(g: State, f: nat, result: Option<NewPair>) {
    if KeyOf(g, f) == "" then result.None?
    else exists i :: 0 <= i < |g.calls| && g.calls[i].flight == Some(f) && Answer(g.calls[i].outcome) == result
  }

  ghost predicate FlightOk(g: State, f: nat)
    requires f < |g.table|
  {
    && g.table[f].leader in g.threads && g.threads[g.table[f].leader].flight == f
    && !g.threads[g.table[f].leader].Waiting?
    && (g.table[f].complete ==> Obtained(g, f, g.table[f].result))
  }

  ghost predicate KeyOk(g: State, key: Iam.Token)
    requires key in g.flights
  {
    var f := g.flights[key];
    f < |g.table| && g.table[f].key == key && g.table[f].leader in g.threads && Leads(g.threads[g.table[f].leader])
  }

  ghost predicate CallOk(g: State, i: nat)
    requires i < |g.calls|
  {
    var c := g.calls[i];
    && (c.flight.Some? ==> c.flight.value < |g.table| && g.table[c.flight.value].key == c.token)
    && (forall j {:trigger g.calls[j]} | 0 <= j < i && c.flight.Some? :: g.calls[j].flight != c.flight)
    && (c.outcome.Reused? ==> exists j :: 0 <= j < i && g.calls[j].token == c.token && g.calls[j].outcome.Pair?)
  }

  ghost predicate Inv(g: State) {
    && (forall t {:trigger ThreadOk(g, t)} | t in g.threads :: ThreadOk(g, t))
    && (forall f: nat {:trigger FlightOk(g, f)} | f < |g.table| :: FlightOk(g, f))
    && (forall key {:trigger KeyOk(g, key)} | key in g.flights :: KeyOk(g, key))
    && (forall i: nat {:trigger CallOk(g, i)} | i < |g.calls| :: CallOk(g, i))
    && Iam.Inv(g.iam)
    && (forall t {:trigger SpentBy(g, t)} | t in g.iam.spent :: SpentBy(g, t))
  }

  // Some logged call used the token up.
  ghost predicate SpentBy(g: State, t: Iam.Token) {
    exists j :: 0 <= j < |g.calls| && g.calls[j].token == t && g.calls[j].outcome.Pair?
  }

  // ---------------------------------------------------------------------
  // Every step keeps the invariant
  // ---------------------------------------------------------------------

  lemma EnterKeepsInv(g: State, a: Action)
    requires Inv(g) && a.Enter? && Enabled(g, a)
    ensures Inv(Next(g, a))
  {
    var h := Next(g, a);
    Carry(g, h);
    if a.key in g.flights {
      assert KeyOk(g, a.key);
    }
    forall i: nat | i < |g.calls|
      ensures g.calls[i].flight != Some(|g.table|)
    {
      assert CallOk(g, i);
    }
    forall t | t in h.threads
      ensures ThreadOk(h, t)
    {
      if t != a.thread {
        assert ThreadOk(g, t);
      }
    }
    forall f: nat | f < |h.table|
      ensures FlightOk(h, f)
    {
      if f < |g.table| {
        assert FlightOk(g, f);
      }
    }
    forall key | key in h.flights
      ensures KeyOk(h, key)
    {
      if key in g.flights {
        assert KeyOk(g, key);
      }
    }
  }

  /** Publishing makes the leader's result visible to the waiters. */
  lemma PublishKeepsInv(g: State, a: Action)
    requires Inv(g) && a.Publish? && Enabled(g, a)
    ensures Inv(Next(g, a))
  {
    var h := Next(g, a);
    assert ThreadOk(g, a.thread);
    var f0 := g.threads[a.thread].flight;
    Carry(g, h);
    forall t | t in h.threads
      ensures ThreadOk(h, t)
    {
      assert ThreadOk(g, t);
      if t != a.thread && g.threads[t].flight == f0 {
        assert FlightOk(g, f0);
      }
    }
    forall f: nat | f < |h.table|
      ensures FlightOk(h, f)
    {
      assert FlightOk(g, f);
    }
    forall key | key in h.flights
      ensures KeyOk(h, key)
    {
      assert KeyOk(g, key);
    }
  }

  /** The leader frees its key, whether the operation returned or raised. */
  lemma PopKeepsInv(g: State, a: Action)
    requires Inv(g) && a.Pop? && Enabled(g, a)
    ensures Inv(Next(g, a))
  {
    var h := Next(g, a);
    assert ThreadOk(g, a.thread);
    var f0 := g.threads[a.thread].flight;
    Carry(g, h);
    forall t | t in h.threads
      ensures ThreadOk(h, t)
    {
      assert ThreadOk(g, t);
      if t != a.thread && Leads(g.threads[t]) {
        assert g.table[g.threads[t].flight].key != g.table[f0].key;
      }
    }
    forall f: nat | f < |h.table|
      ensures FlightOk(h, f)
    {
      assert FlightOk(g, f);
    }
    forall key | key in h.flights
      ensures KeyOk(h, key)
    {
      assert KeyOk(g, key);
      assert FlightOk(g, g.flights[key]);
    }
  }

  lemma FollowerKeepsInv(g: State, a: Action)
    requires Inv(g) && (a.Wake? || a.Timeout?) && Enabled(g, a)
    ensures Inv(Next(g, a))
  {
    var h := Next(g, a);
    assert ThreadOk(g, a.thread) && FlightOk(g, g.threads[a.thread].flight);
    Carry(g, h);
    forall t | t in h.threads
      ensures ThreadOk(h, t)
    {
      assert ThreadOk(g, t);
    }
    forall f: nat | f < |h.table|
      ensures FlightOk(h, f)
    {
      assert FlightOk(g, f);
    }
    forall key | key in h.flights
      ensures KeyOk(h, key)
    {
      assert KeyOk(g, key);
    }
  }

  /** One more call in the log: its own entry is in order, and so is IAM's past. */
  lemma CallKeepsLog(g: State, caller: Option<nat>, c: Iam.Command)
    requires Inv(g) && c.Refresh? && Iam.Fresh(g.iam, c)
    requires caller.Some? ==> caller.value < |g.table| && g.table[caller.value].key == c.token && !Called(g, caller.value)
    ensures var h := CallIam(g, caller, c);
            && (forall i: nat {:trigger CallOk(h, i)} | i < |h.calls| :: CallOk(h, i))
            && Iam.Inv(h.iam)
            && (forall t {:trigger SpentBy(h, t)} | t in h.iam.spent :: SpentBy(h, t))
  {
    var h := CallIam(g, caller, c);
    Carry(g, h);
    Iam.AdvanceKeepsInv(g.iam, c);
    forall i: nat | i < |h.calls|
      ensures CallOk(h, i)
    {
      if i < |g.calls| {
        assert CallOk(g, i);
      } else if Iam.Step(g.iam.st, c).1.Reused? {
        Iam.ReuseCaughtIff(g.iam, c.token, c.newToken);
        assert SpentBy(g, c.token);
        var j :| 0 <= j < |g.calls| && g.calls[j].token == c.token && g.calls[j].outcome.Pair?;
        assert h.calls[j] == g.calls[j];
      }
    }
    forall t | t in h.iam.spent
      ensures SpentBy(h, t)
    {
      if t in g.iam.spent {
        assert SpentBy(g, t);
      } else {
        assert h.calls[|g.calls|].token == t;
      }
    }
  }

  // The operation of one leader leaves every thread in order.
  lemma OperationThread(g: State, a: Action, t: nat)
    requires Inv(g) && (a.Operate? || a.Crash?) && Enabled(g, a) && t in g.threads
    ensures ThreadOk(Next(g, a), t)
  {
    var h := Next(g, a);
    var f0 := g.threads[a.thread].flight;
    assert ThreadOk(g, a.thread) && ThreadOk(g, t);
    Carry(g, h);
    if t == a.thread {
      assert h.calls != g.calls ==> h.calls[|g.calls|].flight == Some(f0);
    } else if Called(h, g.threads[t].flight) && !Called(g, g.threads[t].flight) {
      var i :| 0 <= i < |h.calls| && h.calls[i].flight == Some(g.threads[t].flight);
      assert i == |g.calls|;
    }
  }

  /** The operation, answered or not, calls IAM at most once for its flight. */
  lemma OperationKeepsInv(g: State, a: Action)
    requires Inv(g) && (a.Operate? || a.Crash?) && Enabled(g, a)
    ensures Inv(Next(g, a))
  {
    var h := Next(g, a);
    assert ThreadOk(g, a.thread);
    var f0 := g.threads[a.thread].flight;
    var c := Iam.Refresh(KeyOf(g, f0), a.newToken);
    Carry(g, h);
    if h.calls != g.calls {
      CallKeepsLog(g, Some(f0), c);
      LogOnly(CallIam(g, Some(f0), c), h);
    }
    forall t | t in h.threads
      ensures ThreadOk(h, t)
    {
      OperationThread(g, a, t);
    }
    forall f: nat | f < |h.table|
      ensures FlightOk(h, f)
    {
      assert FlightOk(g, f);
    }
    forall key | key in h.flights
      ensures KeyOk(h, key)
    {
      assert KeyOk(g, key);
    }
  }

  // The log conditions do not look at the threads.
  lemma LogOnly(g: State, h: State)
    requires g.calls == h.calls && g.table == h.table
    ensures forall i: nat {:trigger CallOk(h, i)} | i < |h.calls| && CallOk(g, i) :: CallOk(h, i)
    ensures forall t {:trigger SpentBy(h, t)} :: SpentBy(g, t) ==> SpentBy(h, t)
  {
  }

  /** Anything else at IAM: logins, logouts, direct refreshes. */
  lemma ElsewhereKeepsInv(g: State, a: Action)
    requires Inv(g) && a.Elsewhere? && Enabled(g, a)
    ensures Inv(Next(g, a))
  {
    var h := Next(g, a);
    Carry(g, h);
    if a.command.Refresh? {
      CallKeepsLog(g, None, a.command);
    } else {
      Iam.AdvanceKeepsInv(g.iam, a.command);
    }
    forall t | t in h.threads
      ensures ThreadOk(h, t)
    {
      assert ThreadOk(g, t);
      if Called(h, g.threads[t].flight) {
        var i :| 0 <= i < |h.calls| && h.calls[i].flight == Some(g.threads[t].flight);
        assert i < |g.calls|;
      }
    }
    forall f: nat | f < |h.table|
      ensures FlightOk(h, f)
    {
      assert FlightOk(g, f);
    }
    forall key | key in h.flights
      ensures KeyOk(h, key)
    {
      assert KeyOk(g, key);
    }
  }

  lemma StepKeepsInv(g: State, a: Action)
    requires Inv(g) && Enabled(g, a)
    ensures Inv(Next(g, a))
  {
    match a
    case Enter(_, _) => EnterKeepsInv(g, a);
    case Operate(_, _) => OperationKeepsInv(g, a);
    case Crash(_, _, _) => OperationKeepsInv(g, a);
    case Publish(_) => PublishKeepsInv(g, a);
    case Pop(_) => PopKeepsInv(g, a);
    case Wake(_) => FollowerKeepsInv(g, a);
    case Timeout(_) => FollowerKeepsInv(g, a);
    case Elsewhere(_) => ElsewhereKeepsInv(g, a);
  }

  lemma {:induction false} RunKeepsInv(run: seq<Action>, n: nat)
    requires n <= |run|
    ensures Inv(After(run, n))
    decreases n
  {
    if n > 0 {
      RunKeepsInv(run, n - 1);
      if Enabled(After(run, n - 1), run[n - 1]) {
        StepKeepsInv(After(run, n - 1), run[n - 1]);
      }
    }
  }

  // The log only grows at its end, flights keep their keys, and IAM's past is accounted for.
  ghost predicate Grows(g: State, h: State) {
    && g.calls <= h.calls && |g.table| <= |h.table|
    && forall f: nat {:trigger h.table[f]} | f < |g.table| :: h.table[f].key == g.table[f].key
  }

  /** Facts about the log survive when the log grows. */
  lemma Carry(g: State, h: State)
    requires Grows(g, h)
    ensures forall f: nat {:trigger Called(h, f)} :: Called(g, f) ==> Called(h, f)
    ensures forall f: nat, r {:trigger Obtained(h, f, r)} | f < |g.table| && Obtained(g, f, r) :: Obtained(h, f, r)
    ensures forall t {:trigger SpentBy(h, t)} :: SpentBy(g, t) ==> SpentBy(h, t)
    ensures g.calls == h.calls ==> forall f: nat {:trigger Called(h, f)} :: Called(h, f) ==> Called(g, f)
    ensures g.calls == h.calls ==> forall i: nat {:trigger CallOk(h, i)} | i < |h.calls| && CallOk(g, i) :: CallOk(h, i)
  {
    forall f: nat | Called(g, f)
      ensures Called(h, f)
    {
      var i :| 0 <= i < |g.calls| && g.calls[i].flight == Some(f);
      assert h.calls[i] == g.calls[i];
    }
    forall f: nat, r | f < |g.table| && Obtained(g, f, r)
      ensures Obtained(h, f, r)
    {
      assert KeyOf(h, f) == KeyOf(g, f) by {
        assert h.table[f].key == g.table[f].key;
      }
      if KeyOf(g, f) != "" {
        var i :| 0 <= i < |g.calls| && g.calls[i].flight == Some(f) && Answer(g.calls[i].outcome) == r;
        assert h.calls[i] == g.calls[i];
      }
    }
    forall t | SpentBy(g, t)
      ensures SpentBy(h, t)
    {
      var j :| 0 <= j < |g.calls| && g.calls[j].token == t && g.calls[j].outcome.Pair?;
      assert h.calls[j] == g.calls[j];
    }
  }

  // ---------------------------------------------------------------------
  // What every interleaving promises
  // ---------------------------------------------------------------------

  lemma ReachableInv(g: State)
    requires Reachable(g)
    ensures Inv(g)
  {
    var run, n: nat :| n <= |run| && After(run, n) == g;
    RunKeepsInv(run, n);
  }

  /** At most one request per key is between registering and freeing it, and so in the operation. */
  lemma OneLeaderPerKey(g: State, t: nat, u: nat)
    requires Reachable(g) && t in g.threads && u in g.threads
    requires Leads(g.threads[t]) && Leads(g.threads[u])
    requires KeyOf(g, g.threads[t].flight) == KeyOf(g, g.threads[u].flight)
    ensures t == u
  {
    ReachableInv(g);
    assert ThreadOk(g, t) && ThreadOk(g, u);
  }

  /** While a leader has not freed its key, the key leads to its flight. */
  lemma KeyHoldsLeadersFlight(g: State, t: nat)
    requires Reachable(g) && t in g.threads && Leads(g.threads[t])
    ensures KeyOf(g, g.threads[t].flight) in g.flights
    ensures g.flights[KeyOf(g, g.threads[t].flight)] == g.threads[t].flight
  {
    ReachableInv(g);
    assert ThreadOk(g, t);
  }

  /** A key is taken only as long as its leader is on its way to freeing it. */
  lemma TakenKeyHasLeader(g: State, key: Iam.Token)
    requires Reachable(g) && key in g.flights
    ensures exists t :: t in g.threads && Leads(g.threads[t]) && g.threads[t].flight == g.flights[key]
  {
    ReachableInv(g);
    assert KeyOk(g, key);
    assert FlightOk(g, g.flights[key]);
  }

  /**
   Two requests of one flight that both come back with a pair come back with the same one, and it
   is what the flight's only call of IAM returned.
   */
  lemma SamePair(g: State, t: nat, u: nat)
    requires Reachable(g) && t in g.threads && u in g.threads
    requires g.threads[t].Returned? && g.threads[u].Returned? && g.threads[t].flight == g.threads[u].flight
    requires g.threads[t].result.Some? && g.threads[u].result.Some?
    ensures g.threads[t].result == g.threads[u].result
    ensures Obtained(g, g.threads[t].flight, g.threads[t].result)
  {
    ReachableInv(g);
    assert ThreadOk(g, t) && ThreadOk(g, u);
    assert FlightOk(g, g.threads[t].flight);
  }

  /**
   A follower comes back with nothing, or with exactly what its leader published: then the leader neither
   raised nor returned anything else.
   */
  lemma FollowerGetsLeadersResult(g: State, t: nat)
    requires Reachable(g) && t in g.threads && g.threads[t].Returned? && g.threads[t].result.Some?
    ensures g.threads[t].flight < |g.table|
    ensures var leader := g.table[g.threads[t].flight].leader;
            && leader in g.threads && g.threads[leader].flight == g.threads[t].flight
            && (g.threads[leader].Published? || g.threads[leader].Returned?)
            && g.threads[leader].result == g.threads[t].result
  {
    ReachableInv(g);
    assert ThreadOk(g, t) && FlightOk(g, g.threads[t].flight);
    assert ThreadOk(g, g.table[g.threads[t].flight].leader);
  }

  // The thread gave up waiting within the first n steps.
  ghost predicate TimedOut(run: seq<Action>, n: nat, t: nat)
    requires n <= |run|
  {
    exists i: nat {:trigger After(run, i)} :: i < n && run[i] == Timeout(t) && Enabled(After(run, i), run[i])
  }

  // The thread arrived with this key within the first n steps.
  ghost predicate Entered(run: seq<Action>, n: nat, t: nat, key: Iam.Token)
    requires n <= |run|
  {
    exists i: nat {:trigger After(run, i)} :: i < n && run[i] == Enter(t, key) && Enabled(After(run, i), run[i])
  }

  // What a thread that does not lead its flight holds.
  ghost predicate FollowerOk(g: State, t: nat, timedOut: bool)
    requires t in g.threads
  {
    var p := g.threads[t];
    && p.flight < |g.table|
    && (p.Waiting? ==> !timedOut)
    && (g.table[p.flight].leader != t ==>
          p.Waiting? || (p.Returned? && if timedOut then p.result.None?
                                        else g.table[p.flight].complete && p.result == g.table[p.flight].result))
    && (g.table[p.flight].leader == t ==> !timedOut)
  }

  lemma StepTimesOut(run: seq<Action>, n: nat, t: nat)
    requires n < |run|
    ensures TimedOut(run, n + 1, t) <==> TimedOut(run, n, t) || (run[n] == Timeout(t) && Enabled(After(run, n), run[n]))
  {
    if run[n] == Timeout(t) && Enabled(After(run, n), run[n]) {
      assert TimedOut(run, n + 1, t);
    }
  }

  // A flight that is complete keeps its result, and every flight its leader.
  lemma FlightsStay(g: State, a: Action, f: nat)
    requires Inv(g) && Enabled(g, a) && f < |g.table|
    ensures f < |Next(g, a).table| && Next(g, a).table[f].leader == g.table[f].leader && Next(g, a).table[f].key == g.table[f].key
    ensures g.table[f].complete ==> Next(g, a).table[f] == g.table[f]
  {
    if a.Publish? {
      assert ThreadOk(g, a.thread);
    }
  }

  lemma {:induction false} FollowersHold(run: seq<Action>, n: nat, t: nat)
    requires n <= |run| && t in After(run, n).threads
    ensures FollowerOk(After(run, n), t, TimedOut(run, n, t))
    decreases n
  {
    if n > 0 {
      var g, a := After(run, n - 1), run[n - 1];
      RunKeepsInv(run, n - 1);
      StepTimesOut(run, n - 1, t);
      if t in g.threads {
        FollowersHold(run, n - 1, t);
        assert ThreadOk(g, t);
        if Enabled(g, a) {
          FollowerStep(g, a, t, TimedOut(run, n - 1, t));
        }
      } else {
        NotHereYet(run, n - 1, t);
        assert Enabled(g, a) && a.Enter? && a.thread == t;
        if a.key in g.flights {
          assert KeyOk(g, a.key);
        }
      }
    }
  }

  // A thread that has not arrived has not timed out.
  lemma {:induction false} NotHereYet(run: seq<Action>, n: nat, t: nat)
    requires n <= |run| && t !in After(run, n).threads
    ensures !TimedOut(run, n, t)
    decreases n
  {
    if n > 0 {
      NotHereYet(run, n - 1, t);
      StepTimesOut(run, n - 1, t);
    }
  }

  lemma FollowerStep(g: State, a: Action, t: nat, timedOut: bool)
    requires Inv(g) && Enabled(g, a) && t in g.threads && ThreadOk(g, t) && FollowerOk(g, t, timedOut)
    ensures t in Next(g, a).threads && FollowerOk(Next(g, a), t, timedOut || a == Timeout(t))
  {
    FlightsStay(g, a, g.threads[t].flight);
    assert FlightOk(g, g.threads[t].flight);
  }

  /**
   A request that joined another's flight comes back with nothing if it gave up waiting, and otherwise with
   exactly what the leader published, nothing else.
   */
  lemma FollowerGetsPublishedResult(run: seq<Action>, n: nat, t: nat)
    requires n <= |run| && t in After(run, n).threads && After(run, n).threads[t].Returned?
    requires After(run, n).threads[t].flight < |After(run, n).table|
    requires After(run, n).table[After(run, n).threads[t].flight].leader != t
    ensures var g := After(run, n);
            var f := g.threads[t].flight;
            var leader := g.table[f].leader;
            if TimedOut(run, n, t) then g.threads[t].result.None?
            else leader in g.threads && (g.threads[leader].Published? || g.threads[leader].Returned?)
                 && g.threads[leader].flight == f && g.threads[t].result == g.threads[leader].result
  {
    var g := After(run, n);
    RunKeepsInv(run, n);
    FollowersHold(run, n, t);
    assert FlightOk(g, g.threads[t].flight) && ThreadOk(g, g.table[g.threads[t].flight].leader);
  }

  /** The flight of a request is for the token that it came with. */
  lemma {:induction false} FlightOfOwnKey(run: seq<Action>, n: nat, t: nat, key: Iam.Token)
    requires n <= |run| && Entered(run, n, t, key)
    ensures t in After(run, n).threads && After(run, n).threads[t].flight < |After(run, n).table|
    ensures KeyOf(After(run, n), After(run, n).threads[t].flight) == key
    decreases n
  {
    var g, a := After(run, n - 1), run[n - 1];
    RunKeepsInv(run, n - 1);
    if Entered(run, n - 1, t, key) {
      FlightOfOwnKey(run, n - 1, t, key);
      if Enabled(g, a) {
        FlightsStay(g, a, g.threads[t].flight);
        KeepsFlight(g, a, t);
      }
    } else {
      assert a == Enter(t, key) && Enabled(g, a);
      if key in g.flights {
        assert KeyOk(g, key);
      }
    }
  }

  lemma KeepsFlight(g: State, a: Action, t: nat)
    requires Enabled(g, a) && t in g.threads
    ensures t in Next(g, a).threads && Next(g, a).threads[t].flight == g.threads[t].flight
  {
  }

  /** A leader whose operation returned called IAM exactly once for its flight, and returns what IAM answered. */
  lemma ReturningLeaderCalledOnce(g: State, t: nat)
    requires Reachable(g) && t in g.threads && !g.threads[t].Waiting? && !g.threads[t].Leading?
    requires !g.threads[t].Raised? && !g.threads[t].Failed?
    requires g.threads[t].flight < |g.table| && g.table[g.threads[t].flight].leader == t && KeyOf(g, g.threads[t].flight) != ""
    ensures exists i :: 0 <= i < |g.calls| && g.calls[i].flight == Some(g.threads[t].flight)
              && Answer(g.calls[i].outcome) == g.threads[t].result
              && forall j | 0 <= j < |g.calls| && g.calls[j].flight == Some(g.threads[t].flight) :: j == i
  {
    ReachableInv(g);
    var f := g.threads[t].flight;
    assert ThreadOk(g, t) && FlightOk(g, f);
    assert Obtained(g, f, g.threads[t].result);
    var i :| 0 <= i < |g.calls| && g.calls[i].flight == Some(f) && Answer(g.calls[i].outcome) == g.threads[t].result;
    forall j | 0 <= j < |g.calls| && g.calls[j].flight == Some(f)
      ensures j == i
    {
      OneCallPerFlight(g, i, j);
    }
  }

  /** However many requests join a flight, it calls IAM at most once. */
  lemma OneCallPerFlight(g: State, i: nat, j: nat)
    requires Reachable(g) && i < |g.calls| && j < |g.calls|
    requires g.calls[i].flight.Some? && g.calls[i].flight == g.calls[j].flight
    ensures i == j
  {
    ReachableInv(g);
    assert CallOk(g, i) && CallOk(g, j);
  }

  /**
   A flight never trips over itself: if its call is caught as reuse, an earlier call had used the
   token up, and that call was not of this flight. If it was of another flight, that flight had
   freed the key before this one took it.
   */
  lemma ReuseComesFromEarlierFlight(g: State, a: Action, i: nat)
    requires Reachable(g) && Enabled(g, a) && i == |g.calls| < |Next(g, a).calls|
    requires Next(g, a).calls[i].flight.Some? && Next(g, a).calls[i].outcome.Reused?
    ensures exists j :: 0 <= j < i && g.calls[j].token == Next(g, a).calls[i].token && g.calls[j].outcome.Pair?
              && g.calls[j].flight != Next(g, a).calls[i].flight
              && (g.calls[j].flight.Some? ==> FreedBefore(g, g.calls[j].flight.value, g.calls[j].token))
  {
    ReachableInv(g);
    StepKeepsInv(g, a);
    var h := Next(g, a);
    assert CallOk(h, i) && ThreadOk(g, a.thread);
    var j :| 0 <= j < i && h.calls[j].token == h.calls[i].token && h.calls[j].outcome.Pair?;
    assert CallOk(g, j) && CallOk(h, j);
    if g.calls[j].flight.Some? {
      var f := g.calls[j].flight.value;
      assert g.flights[g.calls[j].token] != f;
      assert FlightOk(g, f);
      var t := g.table[f].leader;
      assert ThreadOk(g, t);
    }
  }

  // The key belongs to another flight by now, and this flight's leader is gone.
  ghost predicate FreedBefore(g: State, f: nat, key: Iam.Token) {
    && key in g.flights && g.flights[key] != f
    && f < |g.table| && g.table[f].leader in g.threads && !Leads(g.threads[g.table[f].leader])
  }

  /** The other side: a request that arrives after the pop opens a second flight and ends the session. */
  lemma LateRequestEndsFamily(g: State, t: nat, u: nat, n: Iam.Token, m: Iam.Token)
    requires Reachable(g) && t in g.threads && g.threads[t].Leading? && u !in g.threads
    requires Enabled(g, Operate(t, n)) && Next(g, Operate(t, n)).threads[t].result.Some?
    ensures var g1 := Next(g, Operate(t, n));
            var g3 := Next(Next(g1, Publish(t)), Pop(t));
            var g4 := Next(g3, Enter(u, KeyOf(g, g.threads[t].flight)));
            m != n && m !in g.iam.issued ==>
              Enabled(g4, Operate(u, m)) && Next(g4, Operate(u, m)).calls[|g4.calls|].outcome
                == Iam.Reused(g1.threads[t].result.value.family)
  {
    ReachableInv(g);
    assert ThreadOk(g, t);
    if m != n && m !in g.iam.issued {
      Iam.SecondUseEndsFamily(g.iam, KeyOf(g, g.threads[t].flight), n, m);
      LateRequestLeads(g, t, u, n);
    }
  }

  // The late request opens a flight of its own for the same token, and nothing happened at IAM in between.
  lemma LateRequestLeads(g: State, t: nat, u: nat, n: Iam.Token)
    requires Inv(g) && t in g.threads && g.threads[t].Leading? && u !in g.threads && Enabled(g, Operate(t, n))
    ensures var g1 := Next(g, Operate(t, n));
            var g3 := Next(Next(g1, Publish(t)), Pop(t));
            var g4 := Next(g3, Enter(u, KeyOf(g, g.threads[t].flight)));
            && g4.iam == g1.iam && u in g4.threads && g4.threads[u].Leading?
            && KeyOf(g4, g4.threads[u].flight) == KeyOf(g, g.threads[t].flight)
  {
    assert ThreadOk(g, t);
    var g1 := Next(g, Operate(t, n));
    var g3 := Next(Next(g1, Publish(t)), Pop(t));
    assert g3.iam == g1.iam && KeyOf(g, g.threads[t].flight) !in g3.flights;
  }

  /** A flight's call is caught as reuse exactly while an active session remembers its token as the last one used up. */
  lemma CallReusedIff(g: State, t: nat, n: Iam.Token)
    requires Reachable(g) && Enabled(g, Operate(t, n)) && KeyOf(g, g.threads[t].flight) != ""
    ensures |Next(g, Operate(t, n)).calls| == |g.calls| + 1
    ensures Next(g, Operate(t, n)).calls[|g.calls|].outcome.Reused? <==>
            exists id :: id in g.iam.st.sessions && g.iam.st.sessions[id].status == Iam.Active
                         && g.iam.st.sessions[id].previous == Some(Iam.Digest(KeyOf(g, g.threads[t].flight)))
  {
    ReachableInv(g);
    Iam.ReuseCaughtIff(g.iam, KeyOf(g, g.threads[t].flight), n);
  }

  /** Such a state is reached by a login and one request: from it the late request ends the session. */
  lemma LateRequestHappens(user: Uuid, session: Uuid, family: Uuid, name: string, t0: Iam.Token, n: Iam.Token, m: Iam.Token)
    requires t0 != "" && t0 != n && m !in {t0, n}
    ensures var run := [Elsewhere(Iam.Login(true, name, user, session, family, t0)), Enter(0, t0)];
            var g := After(run, 2);
            && Reachable(g) && 0 in g.threads && g.threads[0].Leading? && 1 !in g.threads
            && Enabled(g, Operate(0, n)) && Next(g, Operate(0, n)).threads[0].result == Some(NewPair(session, family, n))
            && m !in g.iam.issued
  {
    var run := [Elsewhere(Iam.Login(true, name, user, session, family, t0)), Enter(0, t0)];
    Iam.FirstLogin(user, session, family, name, t0);
    assert After(run, 0) == START;
    assert After(run, 1).iam == Iam.Advance(START.iam, Iam.Login(true, name, user, session, family, t0));
    assert After(run, 2) == Next(After(run, 1), Enter(0, t0));
    Iam.OneSessionRotates(user, session, family, name, t0, None, 1, n);
  }

  function BothRun(login: Iam.Command, t0: Iam.Token, n: Iam.Token): seq<Action> {
    [Elsewhere(login), Enter(0, t0), Enter(1, t0), Operate(0, n), Publish(0), Wake(1), Pop(0)]
  }

  /** Two requests with one token, the second while the first is at IAM: both return the one new pair. */
  lemma BothGetThePair(user: Uuid, session: Uuid, family: Uuid, name: string, t0: Iam.Token, n: Iam.Token)
    requires t0 != "" && t0 != n
    ensures var pair := Some(NewPair(session, family, n));
            var g := After(BothRun(Iam.Login(true, name, user, session, family, t0), t0, n), 7);
            && g.threads == map[0 := Returned(0, pair), 1 := Returned(0, pair)] && |g.calls| == 1 && g.flights == map[]
  {
    var run := BothRun(Iam.Login(true, name, user, session, family, t0), t0, n);
    BothWait(user, session, family, name, t0, n);
    OneStep(run, 3);
    var g := After(run, 4);
    BothFinish(g, Some(NewPair(session, family, n)));
    OneStep(run, 4);
    OneStep(run, 5);
    OneStep(run, 6);
  }

  lemma BothWait(user: Uuid, session: Uuid, family: Uuid, name: string, t0: Iam.Token, n: Iam.Token)
    requires t0 != "" && t0 != n
    ensures var g := After(BothRun(Iam.Login(true, name, user, session, family, t0), t0, n), 3);
            && Enabled(g, Operate(0, n))
            && var h := Next(g, Operate(0, n));
            && |h.table| == 1 && h.table[0].key == t0 && h.flights == map[t0 := 0] && |h.calls| == 1
            && h.threads == map[0 := Finished(0, Some(NewPair(session, family, n))), 1 := Waiting(0)]
  {
    var login := Iam.Login(true, name, user, session, family, t0);
    Iam.FirstLogin(user, session, family, name, t0);
    Iam.OneSessionRotates(user, session, family, name, t0, None, 1, n);
    BothReach(login, t0, n);
    BothCallOnce(Iam.Advance(Iam.START, login), t0, n, session, family);
  }

  lemma BothReach(login: Iam.Command, t0: Iam.Token, n: Iam.Token)
    requires login.Login? && Iam.Fresh(Iam.START, login)
    ensures After(BothRun(login, t0, n), 3) == Joined(Iam.Advance(Iam.START, login), t0)
  {
    var run := BothRun(login, t0, n);
    OneStep(run, 0);
    assert After(run, 1) == State(map[], [], map[], Iam.Advance(Iam.START, login), []);
    BothJoin(Iam.Advance(Iam.START, login), t0);
    OneStep(run, 1);
    OneStep(run, 2);
  }

  lemma OneStep(run: seq<Action>, n: nat)
    requires n < |run|
    ensures After(run, n + 1) == if Enabled(After(run, n), run[n]) then Next(After(run, n), run[n]) else After(run, n)
  {
  }

  // One request leads, the other waits for it.
  ghost function Joined(iam: Iam.Past, t0: Iam.Token): State {
    State(map[t0 := 0], [Flight(t0, 0, false, None)], map[0 := Leading(0), 1 := Waiting(0)], iam, [])
  }

  lemma BothJoin(iam: Iam.Past, t0: Iam.Token)
    ensures var g := State(map[], [], map[], iam, []);
            Enabled(g, Enter(0, t0)) && Enabled(Next(g, Enter(0, t0)), Enter(1, t0))
            && Next(Next(g, Enter(0, t0)), Enter(1, t0)) == Joined(iam, t0)
  {
    var g := State(map[], [], map[], iam, []);
    assert Next(g, Enter(0, t0)) == State(map[t0 := 0], [Flight(t0, 0, false, None)], map[0 := Leading(0)], iam, []);
  }

  lemma BothCallOnce(iam: Iam.Past, t0: Iam.Token, n: Iam.Token, session: Uuid, family: Uuid)
    requires t0 != "" && n !in iam.issued && Iam.Step(iam.st, Iam.Refresh(t0, n)).1 == Iam.Pair(session, family, n)
    ensures Enabled(Joined(iam, t0), Operate(0, n))
    ensures var g := Next(Joined(iam, t0), Operate(0, n));
            && |g.table| == 1 && g.table[0].key == t0 && g.flights == map[t0 := 0] && |g.calls| == 1
            && g.threads == map[0 := Finished(0, Some(NewPair(session, family, n))), 1 := Waiting(0)]
  {
    assert KeyOf(Joined(iam, t0), 0) == t0;
  }

  lemma BothFinish(g: State, pair: Option<NewPair>)
    requires |g.table| == 1 && g.flights == map[g.table[0].key := 0]
    requires g.threads == map[0 := Finished(0, pair), 1 := Waiting(0)]
    ensures Enabled(g, Publish(0)) && Enabled(Next(g, Publish(0)), Wake(1)) && Enabled(Next(Next(g, Publish(0)), Wake(1)), Pop(0))
    ensures var h := Next(Next(Next(g, Publish(0)), Wake(1)), Pop(0));
            h.threads == map[0 := Returned(0, pair), 1 := Returned(0, pair)] && h.flights == map[] && h.calls == g.calls
  {
    var g1 := Next(g, Publish(0));
    assert g1.threads == map[0 := Published(0, pair), 1 := Waiting(0)];
    var g2 := Next(g1, Wake(1));
    assert g2.threads == map[0 := Published(0, pair), 1 := Returned(0, pair)];
  }

  /**
   When IAM has rotated the token and its answer is lost on the way, the leader raises, and the next request with
   the same token is caught as reuse.
   */
  lemma LostAnswerEndsFamily(g: State, t: nat, u: nat, n: Iam.Token, m: Iam.Token)
    requires Reachable(g) && Enabled(g, Crash(t, true, n)) && u !in g.threads && m != n && m !in g.iam.issued
    requires Iam.Step(g.iam.st, Iam.Refresh(KeyOf(g, g.threads[t].flight), n)).1.Pair?
    requires KeyOf(g, g.threads[t].flight) != ""
    ensures var g1 := Next(g, Crash(t, true, n));
            && g1.threads[t].Raised? && Enabled(g1, Pop(t))
            && var g2 := Next(g1, Pop(t));
            g2.threads[t].Failed? && Enabled(g2, Enter(u, KeyOf(g, g.threads[t].flight)))
            && var g3 := Next(g2, Enter(u, KeyOf(g, g.threads[t].flight)));
            Enabled(g3, Operate(u, m)) && Next(g3, Operate(u, m)).calls[|g3.calls|].outcome.Reused?
            && Next(g3, Operate(u, m)).threads[u].result.None?
  {
    ReachableInv(g);
    Iam.SecondUseEndsFamily(g.iam, KeyOf(g, g.threads[t].flight), n, m);
    LostAnswerLeads(g, t, u, n);
  }

  lemma LostAnswerLeads(g: State, t: nat, u: nat, n: Iam.Token)
    requires Inv(g) && Enabled(g, Crash(t, true, n)) && u !in g.threads && KeyOf(g, g.threads[t].flight) != ""
    ensures var token := KeyOf(g, g.threads[t].flight);
            var g1 := Next(g, Crash(t, true, n));
            && g1.threads[t].Raised? && Enabled(g1, Pop(t))
            && var g2 := Next(g1, Pop(t));
            && g2.threads[t].Failed? && Enabled(g2, Enter(u, token))
            && var g3 := Next(g2, Enter(u, token));
            && g3.iam == Iam.Advance(g.iam, Iam.Refresh(token, n)) && u in g3.threads && g3.threads[u].Leading?
            && KeyOf(g3, g3.threads[u].flight) == token
  {
    assert ThreadOk(g, t);
    var token := KeyOf(g, g.threads[t].flight);
    var g2 := Next(Next(g, Crash(t, true, n)), Pop(t));
    assert g2.iam == Iam.Advance(g.iam, Iam.Refresh(token, n)) && token !in g2.flights;
  }

  /**
   Nobody is stuck: every request that has not come back has a step of its own, a waiter can always give up, and it
   can return once its leader has published. Until then its leader is still at work, or has raised.
   */
  lemma NobodyIsStuck(g: State, t: nat, n: Iam.Token)
    requires Reachable(g) && t in g.threads && n !in g.iam.issued
    ensures match g.threads[t]
            case Leading(_) => Enabled(g, Operate(t, n)) && Enabled(g, Crash(t, true, n)) && Enabled(g, Crash(t, false, n))
            case Finished(_, _) => Enabled(g, Publish(t))
            case Raised(_) => Enabled(g, Pop(t))
            case Published(_, _) => Enabled(g, Pop(t))
            case Waiting(f) =>
              && Enabled(g, Timeout(t)) && f < |g.table| && g.table[f].leader in g.threads
              && var leader := g.threads[g.table[f].leader];
              if leader.Published? || leader.Returned? then Enabled(g, Wake(t))
              else leader.Leading? || leader.Finished? || leader.Raised? || leader.Failed?
            case _ => true
  {
    ReachableInv(g);
    assert ThreadOk(g, t) && FlightOk(g, g.threads[t].flight);
    assert ThreadOk(g, g.table[g.threads[t].flight].leader);
  }

  // The steps that a leader still has to take once its operation is over.
  ghost function Finish(g: State, t: nat): State
    requires t in g.threads && (g.threads[t].Finished? || g.threads[t].Published? || g.threads[t].Raised?)
  {
    if g.threads[t].Finished? then Next(Next(g, Publish(t)), Pop(t)) else Next(g, Pop(t))
  }

  /** Once its operation is over, whether it returned or raised, the leader alone frees its key and no other. */
  lemma LeaderFreesItsKey(g: State, t: nat)
    requires Reachable(g) && t in g.threads
    requires g.threads[t].Finished? || g.threads[t].Published? || g.threads[t].Raised?
    ensures Finish(g, t).flights == g.flights - {KeyOf(g, g.threads[t].flight)}
    ensures KeyOf(g, g.threads[t].flight) in g.flights
    ensures !Leads(Finish(g, t).threads[t])
  {
    ReachableInv(g);
    assert ThreadOk(g, t);
  }
}

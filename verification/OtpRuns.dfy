/** What holds over whole runs of store calls: rolling budgets, single use and attempt counts. */
module OtpRuns {
  import opened Wrappers
  import opened Otp

  datatype Call = Call(event: Event, victim: Option<string>)

  function After(s: State, calls: seq<Call>): State
    decreases |calls|, 1
  {
    if calls == [] then s else OutcomeOf(s, calls).state
  }

  /** The outcome of the last call. */
  function OutcomeOf(s: State, calls: seq<Call>): Outcome
    requires calls != []
    decreases |calls|, 0
  {
    var call := calls[|calls| - 1];
    Step(After(s, calls[..|calls| - 1]), call.event, call.victim)
  }

  /** The time a call brings; a malformed pre-authentication record is refused before its time is looked at. */
  function TimeOf(e: Event): Option<Time>
  {
    match e
    case ReserveCall(r) => Some(r.issuedAt)
    case VerifyCall(v) => Some(v.now)
    case AuthenticateCall(p) => Some(p.now)
    case RevokeAllCall(p) => Some(p.now)
    case CreatePreAuthCall(r) => if WellFormed(r) then Some(r.issuedAt) else None
    case CheckPreAuthCall(p) => Some(p.now)
    case ConsumePreAuthCall(p) => Some(p.now)
    case _ => None
  }

  function Later(clock: Time, e: Event): Time
  {
    match TimeOf(e) case None => clock case Some(t) => t
  }

  function Clock(start: Time, calls: seq<Call>): Time
  {
    if calls == [] then start else Later(Clock(start, calls[..|calls| - 1]), calls[|calls| - 1].event)
  }

  /** Time never goes back. */
  predicate Ordered(start: Time, calls: seq<Call>)
  {
    calls == [] || (Ordered(start, calls[..|calls| - 1]) && Clock(start, calls[..|calls| - 1]) <= Clock(start, calls))
  }

  /** Every call is well named, and every reclaim picks among the dead. */
  predicate Lawful(s: State, calls: seq<Call>)
  {
    calls == [] ||
    (Lawful(s, calls[..|calls| - 1]) && Named(calls[|calls| - 1].event)
     && Choice(After(s, calls[..|calls| - 1]), calls[|calls| - 1].event, calls[|calls| - 1].victim))
  }

  /** In every reachable state the index is exact, attempts stay within five and every map within capacity. */
  lemma {:induction false} RunsStayValid(capacity: nat, calls: seq<Call>)
    requires capacity > 0 && Lawful(Empty(capacity), calls)
    ensures Valid(After(Empty(capacity), calls))
  {
    if calls != [] {
      var call := calls[|calls| - 1];
      RunsStayValid(capacity, calls[..|calls| - 1]);
      StepValid(After(Empty(capacity), calls[..|calls| - 1]), call.event, call.victim);
    }
  }

  // ------------------------------------------------------ rolling budgets

  datatype Budget = ToAddress | FromSource | Bootstrap | Failure | Verified

  function Limit(b: Budget): nat
  {
    match b
    case ToAddress => SENDS_PER_ADDRESS
    case FromSource => SENDS_PER_SOURCE
    case Bootstrap => BOOTSTRAPS_PER_SOURCE
    case Failure => FAILURES_PER_ADDRESS
    case Verified => VERIFICATIONS_PER_SOURCE
  }

  function BudgetOf(l: Ledger, b: Budget): Budgets
  {
    match b
    case ToAddress => l.addressSends
    case FromSource => l.sourceSends
    case Bootstrap => l.bootstraps
    case Failure => l.failures
    case Verified => l.verifications
  }

  /** A verification of this challenge was counted against it. */
  predicate Bumped(before: State, after: State, id: string)
  {
    id in before.challenges && id in after.challenges && after.challenges[id].attempts > before.challenges[id].attempts
  }

  /** Did the call, seen from outside, use up one unit of the budget under key? */
  predicate Uses(s: State, e: Event, o: Outcome, b: Budget, key: string)
  {
    match b
    case ToAddress => e.ReserveCall? && o.answer == Done && e.reservation.email == key
    case FromSource => e.ReserveCall? && o.answer == Done && e.reservation.source == key
    case Bootstrap => e.CreatePreAuthCall? && o.answer == Done && e.record.source == key
    case Failure => e.VerifyCall? && o.answer == BadCode && Bumped(s, o.state, e.attempt.id) && s.challenges[e.attempt.id].reservation.email == key
    case Verified => e.VerifyCall? && o.charged && e.attempt.source == key
  }

  /** The times of every accepted use since the beginning. */
  function History(s: State, calls: seq<Call>, b: Budget, key: string): seq<Time>
  {
    if calls == [] then []
    else
      var front, e := calls[..|calls| - 1], calls[|calls| - 1].event;
      History(s, front, b, key)
      + (if Uses(After(s, front), e, OutcomeOf(s, calls), b, key) && TimeOf(e).Some? then [TimeOf(e).value] else [])
  }

  /** How one call moves one budget entry. */
  predicate Moves(b: Budget, x: seq<Time>, y: seq<Time>, used: bool, time: Option<Time>)
  {
    if used then
      time.Some? && y == Recent(x, time.value) + [time.value] && |Recent(x, time.value)| < Limit(b)
      && (b == ToAddress ==> !TooSoon(Recent(x, time.value), time.value))
    else y == x || (time.Some? && y == Recent(x, time.value))
  }

  lemma GetPruned(b: Budgets, now: Time, key: string)
    ensures Get(Pruned(b, now), key) == Recent(Get(b, key), now)
  {
  }

  lemma GetSpent(b: Budgets, key: string, now: Time, other: string)
    ensures Get(Spend(b, key, now), other) == if other == key then Get(b, key) + [now] else Get(b, other)
  {
  }

  /** The budgets after a reservation: pruned, and the two send budgets spent when it was accepted. */
  predicate Spends(s: State, r: Reservation, o: Outcome)
  {
    var l, now := PruneAll(s.budgets, r.issuedAt), r.issuedAt;
    o.state.budgets
    == if o.answer == Done then l.(addressSends := Spend(l.addressSends, r.email, now), sourceSends := Spend(l.sourceSends, r.source, now)) else l
  }

  lemma DropKeepsBudgets(s: State, id: string)
    ensures DropChallenge(s, id).budgets == s.budgets
  {
  }

  lemma PlaceSpends(s: State, q: State, r: Reservation)
    requires q.budgets == PruneAll(s.budgets, r.issuedAt)
    ensures Spends(s, r, Place(q, r))
  {
  }

  lemma ReserveSpends(s: State, r: Reservation, victim: Option<string>)
    ensures Spends(s, r, Reserve(s, r, victim))
  {
    var p := Prune(s, r.issuedAt);
    PlaceSpends(s, p, r);
    if victim.Some? {
      DropKeepsBudgets(p, victim.value);
      PlaceSpends(s, DropChallenge(p, victim.value), r);
    }
  }

  lemma ReserveGate(s: State, r: Reservation, victim: Option<string>)
    requires Reserve(s, r, victim).answer == Done
    ensures var address := Get(Pruned(s.budgets.addressSends, r.issuedAt), r.email);
            |address| < SENDS_PER_ADDRESS && !TooSoon(address, r.issuedAt) && |Get(Pruned(s.budgets.sourceSends, r.issuedAt), r.source)| < SENDS_PER_SOURCE
  {
  }

  lemma ReserveMoves(s: State, r: Reservation, victim: Option<string>, b: Budget, key: string)
    ensures var o := Reserve(s, r, victim);
            Moves(b, Get(BudgetOf(s.budgets, b), key), Get(BudgetOf(o.state.budgets, b), key), Uses(s, ReserveCall(r), o, b, key), Some(r.issuedAt))
  {
    var o := Reserve(s, r, victim);
    ReserveSpends(s, r, victim);
    if o.answer == Done {
      ReserveGate(s, r, victim);
    }
    SpendsMove(s, r, o, b, key);
  }

  lemma SpendsMove(s: State, r: Reservation, o: Outcome, b: Budget, key: string)
    requires Spends(s, r, o)
    requires o.answer == Done ==>
               |Get(Pruned(s.budgets.addressSends, r.issuedAt), r.email)| < SENDS_PER_ADDRESS
               && !TooSoon(Get(Pruned(s.budgets.addressSends, r.issuedAt), r.email), r.issuedAt)
               && |Get(Pruned(s.budgets.sourceSends, r.issuedAt), r.source)| < SENDS_PER_SOURCE
    ensures Moves(b, Get(BudgetOf(s.budgets, b), key), Get(BudgetOf(o.state.budgets, b), key), Uses(s, ReserveCall(r), o, b, key), Some(r.issuedAt))
  {
    GetPruned(BudgetOf(s.budgets, b), r.issuedAt, key);
    if b == ToAddress {
      GetSpent(Pruned(s.budgets.addressSends, r.issuedAt), r.email, r.issuedAt, key);
    } else if b == FromSource {
      GetSpent(Pruned(s.budgets.sourceSends, r.issuedAt), r.source, r.issuedAt, key);
    }
  }

  lemma MissMoves(q: State, v: Verification, c: Challenge, b: Budget, key: string)
    requires v.id in q.challenges && c == q.challenges[v.id]
    ensures var o := Miss(q, v, c);
            var x, y := Get(BudgetOf(q.budgets, b), key), Get(BudgetOf(o.state.budgets, b), key);
            if b == Failure && o.answer == BadCode && c.reservation.email == key
            then y == x + [v.now] && |x| < FAILURES_PER_ADDRESS && Bumped(q, o.state, v.id)
            else y == x
  {
    GetSpent(q.budgets.failures, c.reservation.email, v.now, key);
  }

  lemma GrantMoves(q: State, v: Verification, c: Challenge, victim: Option<string>)
    ensures Grant(q, v, c, victim).state.budgets == q.budgets
    ensures Grant(q, v, c, victim).answer != BadCode
  {
  }

  /** Past the source's gate, only a counted mismatch spends anything, and that from the failure budget. */
  lemma JudgeMoves(q: State, v: Verification, victim: Option<string>, b: Budget, key: string)
    ensures var o := Judge(q, v, victim);
            var x, y := Get(BudgetOf(q.budgets, b), key), Get(BudgetOf(o.state.budgets, b), key);
            if b == Failure && o.answer == BadCode && Bumped(q, o.state, v.id) && q.challenges[v.id].reservation.email == key
            then y == x + [v.now] && |x| < FAILURES_PER_ADDRESS
            else y == x
  {
    if v.id in q.challenges {
      MissMoves(q, v, q.challenges[v.id], b, key);
      GrantMoves(q, v, q.challenges[v.id], victim);
    }
  }

  lemma VerifyMoves(s: State, v: Verification, victim: Option<string>, b: Budget, key: string)
    ensures var o := Verify(s, v, victim);
            Moves(b, Get(BudgetOf(s.budgets, b), key), Get(BudgetOf(o.state.budgets, b), key), Uses(s, VerifyCall(v), o, b, key), Some(v.now))
  {
    var p := Prune(s, v.now);
    GetPruned(BudgetOf(s.budgets, b), v.now, key);
    GateMoves(p, v, victim, b, key);
  }

  /** After pruning, a verification at most appends: to its source's checks, and to the failures of a counted mismatch. */
  lemma GateMoves(p: State, v: Verification, victim: Option<string>, b: Budget, key: string)
    ensures var o := Gate(p, v, victim);
            var x, y := Get(BudgetOf(p.budgets, b), key), Get(BudgetOf(o.state.budgets, b), key);
            if Uses(p, VerifyCall(v), o, b, key) then y == x + [v.now] && |x| < Limit(b) && b != ToAddress else y == x
  {
    if b == Verified {
      GateChecks(p, v, victim, key);
    } else {
      ChargedKeeps(p, v, b);
      JudgeMoves(Charged(p, v), v, victim, b, key);
    }
  }

  lemma ChargedKeeps(p: State, v: Verification, b: Budget)
    requires b != Verified
    ensures BudgetOf(Charged(p, v).budgets, b) == BudgetOf(p.budgets, b) && Charged(p, v).challenges == p.challenges
  {
  }

  /** The source's checks: one more exactly when the gate let the verification through. */
  lemma GateChecks(p: State, v: Verification, victim: Option<string>, key: string)
    ensures var o := Gate(p, v, victim);
            var x, y := Get(p.budgets.verifications, key), Get(o.state.budgets.verifications, key);
            if o.charged && v.source == key then y == x + [v.now] && |x| < VERIFICATIONS_PER_SOURCE else y == x
  {
    GetSpent(p.budgets.verifications, v.source, v.now, key);
    JudgeKeepsChecks(Charged(p, v), v, victim);
  }

  lemma JudgeKeepsChecks(q: State, v: Verification, victim: Option<string>)
    ensures Judge(q, v, victim).state.budgets.verifications == q.budgets.verifications
  {
    if v.id in q.challenges {
      GrantMoves(q, v, q.challenges[v.id], victim);
    }
  }

  lemma CreateMoves(s: State, r: PreAuthRecord, victim: Option<string>, b: Budget, key: string)
    ensures var o := CreatePreAuth(s, r, victim);
            Moves(b, Get(BudgetOf(s.budgets, b), key), Get(BudgetOf(o.state.budgets, b), key), Uses(s, CreatePreAuthCall(r), o, b, key), TimeOf(CreatePreAuthCall(r)))
  {
    if WellFormed(r) {
      GetPruned(BudgetOf(s.budgets, b), r.issuedAt, key);
      GetSpent(Pruned(s.budgets.bootstraps, r.issuedAt), r.source, r.issuedAt, key);
      CreateSpends(s, r, victim);
    }
  }

  /** A bootstrap is enrolled in the pruned store, or in that store with one page less, and otherwise changes no budget. */
  lemma CreateEnrolls(s: State, r: PreAuthRecord, victim: Option<string>)
    requires WellFormed(r)
    ensures var o, p := CreatePreAuth(s, r, victim), Prune(s, r.issuedAt);
            if o.answer == Done
            then |Get(p.budgets.bootstraps, r.source)| < BOOTSTRAPS_PER_SOURCE
                 && (o.state == Enrolled(p, r) || (victim.Some? && o.state == Enrolled(DropBrowserState(p, victim.value), r)))
            else o.state == p
  {
  }

  lemma CreateSpends(s: State, r: PreAuthRecord, victim: Option<string>)
    requires WellFormed(r)
    ensures var o, l := CreatePreAuth(s, r, victim), PruneAll(s.budgets, r.issuedAt);
            if o.answer == Done
            then o.state.budgets == l.(bootstraps := Spend(l.bootstraps, r.source, r.issuedAt)) && |Get(l.bootstraps, r.source)| < BOOTSTRAPS_PER_SOURCE
            else o.state.budgets == l
  {
    var p := Prune(s, r.issuedAt);
    CreateEnrolls(s, r, victim);
    EnrolledSpends(p, r);
    if victim.Some? {
      EnrolledSpends(DropBrowserState(p, victim.value), r);
    }
  }

  lemma EnrolledSpends(s: State, r: PreAuthRecord)
    ensures Enrolled(s, r).budgets == s.budgets.(bootstraps := Spend(s.budgets.bootstraps, r.source, r.issuedAt))
  {
  }

  lemma StepMoves(s: State, e: Event, victim: Option<string>, b: Budget, key: string)
    ensures var o := Step(s, e, victim);
            Moves(b, Get(BudgetOf(s.budgets, b), key), Get(BudgetOf(o.state.budgets, b), key), Uses(s, e, o, b, key), TimeOf(e))
  {
    match e
    case ReserveCall(r) => ReserveMoves(s, r, victim, b, key);
    case VerifyCall(v) => VerifyMoves(s, v, victim, b, key);
    case CreatePreAuthCall(r) => CreateMoves(s, r, victim, b, key);
    case _ => assert BudgetOf(Step(s, e, victim).state.budgets, b) == BudgetOf(s.budgets, b);
  }

  predicate Ascending(h: seq<Time>)
  {
    forall i, j :: 0 <= i < j < |h| ==> h[i] <= h[j]
  }

  /** From now on the pruned values and the full history give the same recent uses. */
  ghost predicate Recalls(values: seq<Time>, history: seq<Time>, clock: Time)
  {
    forall t :: t >= clock ==> Recent(values, t) == Recent(history, t)
  }

  /** Any limit + 1 consecutive uses span an hour. */
  ghost predicate Spaced(h: seq<Time>, limit: nat)
  {
    forall i, j :: 0 <= i && j == i + limit && j < |h| ==> h[j] - h[i] >= HOUR
  }

  predicate Apart(h: seq<Time>)
  {
    forall i, j :: 0 <= i < j < |h| ==> h[j] - h[i] >= MINUTE
  }

  predicate Past(h: seq<Time>, clock: Time)
  {
    forall i :: 0 <= i < |h| ==> h[i] <= clock
  }

  lemma {:induction false} RecentIsSuffix(h: seq<Time>, now: Time)
    ensures |Recent(h, now)| <= |h| && Recent(h, now) == h[|h| - |Recent(h, now)|..]
    ensures forall i :: 0 <= i < |h| - |Recent(h, now)| ==> h[i] <= now - HOUR
    ensures Recent(h, now) != [] ==> Recent(h, now)[0] > now - HOUR
  {
    if h != [] && h[0] <= now - HOUR {
      RecentIsSuffix(h[1..], now);
    }
  }

  lemma {:induction false} RecentTwice(h: seq<Time>, t: Time, u: Time)
    requires t <= u
    ensures Recent(Recent(h, t), u) == Recent(h, u)
  {
    if h != [] && h[0] <= t - HOUR {
      RecentTwice(h[1..], t, u);
    }
  }

  lemma {:induction false} RecentAppend(h: seq<Time>, x: Time, t: Time)
    ensures Recent(h + [x], t) == if Recent(h, t) == [] then Recent([x], t) else Recent(h, t) + [x]
  {
    if h == [] {
      assert h + [x] == [x];
    } else if h[0] <= t - HOUR {
      assert (h + [x])[1..] == h[1..] + [x];
      RecentAppend(h[1..], x, t);
    }
  }

  lemma RecallsPruned(values: seq<Time>, history: seq<Time>, clock: Time, now: Time)
    requires Recalls(values, history, clock) && clock <= now
    ensures Recalls(Recent(values, now), history, now)
  {
    forall t | t >= now ensures Recent(Recent(values, now), t) == Recent(history, t) {
      RecentTwice(values, now, t);
    }
  }

  lemma RecallsAppended(values: seq<Time>, history: seq<Time>, clock: Time, x: Time)
    requires Recalls(values, history, clock)
    ensures Recalls(values + [x], history + [x], clock)
  {
    forall t | t >= clock ensures Recent(values + [x], t) == Recent(history + [x], t) {
      RecentAppend(values, x, t);
      RecentAppend(history, x, t);
    }
  }

  /** A history that keeps its budget, up to the clock. */
  ghost predicate Kept(b: Budget, values: seq<Time>, h: seq<Time>, clock: Time)
  {
    Recalls(values, h, clock) && Ascending(h) && Past(h, clock) && Spaced(h, Limit(b)) && (b == ToAddress ==> Apart(h))
  }

  lemma SpacedAppend(h: seq<Time>, limit: nat, now: Time)
    requires Spaced(h, limit) && |Recent(h, now)| < limit
    ensures Spaced(h + [now], limit)
  {
    RecentIsSuffix(h, now);
  }

  lemma ApartAppend(h: seq<Time>, now: Time)
    requires Apart(h) && Ascending(h) && !TooSoon(Recent(h, now), now)
    ensures Apart(h + [now])
  {
    RecentIsSuffix(h, now);
    assert h != [] ==> now - h[|h| - 1] >= MINUTE;
  }

  lemma KeptMoves(b: Budget, x: seq<Time>, y: seq<Time>, h: seq<Time>, used: bool, clock: Time, time: Option<Time>)
    requires Kept(b, x, h, clock) && Moves(b, x, y, used, time)
    requires time.Some? ==> clock <= time.value
    ensures var now := if time.Some? then time.value else clock;
            Kept(b, y, if used then h + [now] else h, now)
  {
    if time.Some? {
      RecallsPruned(x, h, clock, time.value);
      if used {
        RecallsAppended(Recent(x, time.value), h, time.value, time.value);
        SpacedAppend(h, Limit(b), time.value);
        if b == ToAddress {
          ApartAppend(h, time.value);
        }
      }
    }
  }

  lemma {:induction false} BudgetsKept(capacity: nat, start: Time, calls: seq<Call>, b: Budget, key: string)
    requires Ordered(start, calls)
    ensures var s := Empty(capacity);
            Kept(b, Get(BudgetOf(After(s, calls).budgets, b), key), History(s, calls, b, key), Clock(start, calls))
  {
    if calls != [] {
      var s, front, call := Empty(capacity), calls[..|calls| - 1], calls[|calls| - 1];
      BudgetsKept(capacity, start, front, b, key);
      var before := After(s, front);
      StepMoves(before, call.event, call.victim, b, key);
      KeptMoves(b, Get(BudgetOf(before.budgets, b), key), Get(BudgetOf(After(s, calls).budgets, b), key), History(s, front, b, key),
                Uses(before, call.event, OutcomeOf(s, calls), b, key), Clock(start, front), TimeOf(call.event));
      assert History(s, front, b, key) + [] == History(s, front, b, key);
    }
  }

  /** How many of the times lie in the hour from the given one, its end excluded. */
  function InHour(h: seq<Time>, from: Time): nat
  {
    if h == [] then 0
    else InHour(h[..|h| - 1], from) + if from <= h[|h| - 1] < from + HOUR then 1 else 0
  }

  lemma {:induction false} InHourNone(h: seq<Time>, from: Time)
    requires forall i :: 0 <= i < |h| ==> h[i] < from
    ensures InHour(h, from) == 0
  {
    if h != [] {
      InHourNone(h[..|h| - 1], from);
    }
  }

  lemma {:induction false} InHourGrows(h: seq<Time>, from: Time, k: nat)
    requires k <= |h|
    ensures InHour(h, from) <= InHour(h[..k], from) + |h| - k
  {
    if k < |h| {
      InHourGrows(h[..|h| - 1], from, k);
      assert h[..|h| - 1][..k] == h[..k];
    } else {
      assert h[..k] == h;
    }
  }

  lemma {:induction false} SpacedInHour(h: seq<Time>, limit: nat, from: Time)
    requires limit > 0 && Ascending(h) && Spaced(h, limit)
    ensures InHour(h, from) <= limit
  {
    if h != [] {
      var n := |h|;
      if from <= h[n - 1] < from + HOUR && n > limit {
        assert h[n - 1] - h[n - 1 - limit] >= HOUR;
        InHourNone(h[..n - limit], from);
        InHourGrows(h, from, n - limit);
      } else {
        SpacedInHour(h[..n - 1], limit, from);
        if n <= limit {
          InHourGrows(h, from, 0);
        }
      }
    }
  }

  /**
    Over any run, in any one-hour window, no email, source or address passes its limit; and any two
    accepted sends to one email are a minute apart. Replacing, pruning and reclaiming change nothing.
    */
  lemma RollingBudgets(capacity: nat, start: Time, calls: seq<Call>, b: Budget, key: string, from: Time)
    requires Ordered(start, calls)
    ensures InHour(History(Empty(capacity), calls, b, key), from) <= Limit(b)
    ensures b == ToAddress ==> Apart(History(Empty(capacity), calls, b, key))
  {
    BudgetsKept(capacity, start, calls, b, key);
    SpacedInHour(History(Empty(capacity), calls, b, key), Limit(b), from);
  }

  // ------------------------------------------------------------ single use

  predicate Opens(e: Event, o: Outcome, id: string)
  {
    e.ReserveCall? && e.reservation.id == id && o.answer == Done
  }

  predicate Answers(e: Event, o: Outcome, id: string)
  {
    e.VerifyCall? && e.attempt.id == id && o.answer.Granted?
  }

  predicate Misses(e: Event, o: Outcome, id: string)
  {
    e.VerifyCall? && e.attempt.id == id && o.answer == BadCode
  }

  function Reservations(s: State, calls: seq<Call>, id: string): nat
  {
    if calls == [] then 0
    else Reservations(s, calls[..|calls| - 1], id) + if Opens(calls[|calls| - 1].event, OutcomeOf(s, calls), id) then 1 else 0
  }

  function Successes(s: State, calls: seq<Call>, id: string): nat
  {
    if calls == [] then 0
    else Successes(s, calls[..|calls| - 1], id) + if Answers(calls[|calls| - 1].event, OutcomeOf(s, calls), id) then 1 else 0
  }

  /** The refusals of this ID's codes since it was last reserved. */
  function Failures(s: State, calls: seq<Call>, id: string): nat
  {
    if calls == [] || Opens(calls[|calls| - 1].event, OutcomeOf(s, calls), id) then 0
    else Failures(s, calls[..|calls| - 1], id) + if Misses(calls[|calls| - 1].event, OutcomeOf(s, calls), id) then 1 else 0
  }

  predicate Open(s: State, id: string)
  {
    id in s.challenges && s.challenges[id].active
  }

  /** What one call may do to one challenge. */
  predicate Treats(s: State, e: Event, o: Outcome, id: string)
  {
    if Opens(e, o, id) then id !in s.challenges && Open(o.state, id) && o.state.challenges[id] == Challenge(e.reservation, 0, true)
    else if Answers(e, o, id) then Open(s, id) && !Open(o.state, id) && Usable(s.challenges[id], e.attempt.now)
    else
      Open(o.state, id) ==>
        Open(s, id) && o.state.challenges[id].reservation == s.challenges[id].reservation
        && o.state.challenges[id].attempts
           == s.challenges[id].attempts + if Misses(e, o, id) && Usable(s.challenges[id], e.attempt.now) then 1 else 0
  }

  lemma DropTreats(s: State, dropped: string, id: string)
    ensures DropChallenge(s, dropped).challenges == s.challenges - {dropped}
    ensures id in DropChallenge(s, dropped).challenges ==> id in s.challenges && DropChallenge(s, dropped).challenges[id] == s.challenges[id]
  {
  }

  lemma OpenedTreats(s: State, r: Reservation, id: string)
    requires r.id !in s.challenges
    ensures if id == r.id then Open(Opened(s, r), id) && Opened(s, r).challenges[id] == Challenge(r, 0, true)
            else Open(Opened(s, r), id) ==> Open(s, id) && Opened(s, r).challenges[id] == s.challenges[id]
  {
  }

  lemma PlaceTreats(s: State, q: State, r: Reservation, id: string)
    requires r.id !in s.challenges && r.id !in q.challenges
    requires id in q.challenges ==> id in s.challenges && q.challenges[id] == s.challenges[id]
    ensures Treats(s, ReserveCall(r), Place(q, r), id)
  {
    OpenedTreats(q, r, id);
  }

  lemma ReserveTreats(s: State, r: Reservation, victim: Option<string>, id: string)
    ensures Treats(s, ReserveCall(r), Reserve(s, r, victim), id)
  {
    var p := Prune(s, r.issuedAt);
    if r.id !in p.challenges {
      PlaceTreats(s, p, r, id);
      if victim.Some? {
        DropTreats(p, victim.value, id);
        PlaceTreats(s, DropChallenge(p, victim.value), r, id);
      }
    }
  }

  lemma VerifyTreats(s: State, v: Verification, victim: Option<string>, id: string)
    ensures Treats(s, VerifyCall(v), Verify(s, v, victim), id)
  {
    var p := Prune(s, v.now);
    var q := Charged(p, v);
    JudgeTreats(q, v, victim, id);
  }

  lemma JudgeTreats(q: State, v: Verification, victim: Option<string>, id: string)
    ensures Treats(q, VerifyCall(v), Judge(q, v, victim), id)
  {
    if v.id in q.challenges && Usable(q.challenges[v.id], v.now) {
      if Matches(q.challenges[v.id].reservation, v) {
        GrantTreats(q, v, victim);
      } else {
        MissTreats(q, v);
      }
    }
  }

  lemma MissTreats(q: State, v: Verification)
    requires v.id in q.challenges
    ensures var o := Miss(q, v, q.challenges[v.id]);
            if o.answer == BadCode then o.state.challenges == q.challenges[v.id := q.challenges[v.id].(attempts := q.challenges[v.id].attempts + 1)]
            else o.state.challenges == q.challenges && o.answer == RateLimited
  {
  }

  lemma GrantTreats(q: State, v: Verification, victim: Option<string>)
    requires v.id in q.challenges
    ensures var o := Grant(q, v, q.challenges[v.id], victim);
            if o.answer.Granted? then o.state.challenges == q.challenges[v.id := q.challenges[v.id].(active := false)]
            else o.state.challenges == q.challenges && o.answer == Unavailable
  {
    var c := q.challenges[v.id];
    GrantEnds(q, v, c, victim);
    AdmitTreats(q, v, c);
    if victim.Some? {
      AdmitTreats(DropSession(q, victim.value), v, c);
    }
  }

  /** Where a grant ends: refused with nothing changed, or admitted, with or without a reclaimed session. */
  lemma GrantEnds(q: State, v: Verification, c: Challenge, victim: Option<string>)
    ensures var o := Grant(q, v, c, victim);
            (o.state == q && o.answer == Unavailable) || o == Admit(q, v, c) || (victim.Some? && o == Admit(DropSession(q, victim.value), v, c))
  {
  }

  lemma AdmitTreats(q: State, v: Verification, c: Challenge)
    ensures var o := Admit(q, v, c);
            if o.answer.Granted? then o.state.challenges == q.challenges[v.id := c.(active := false)]
            else o.state == q && o.answer == Unavailable
  {
  }

  /** Calls that neither reserve nor verify open no challenge and change no attempts. */
  lemma QuietTreats(s: State, e: Event, victim: Option<string>, id: string)
    requires !e.ReserveCall? && !e.VerifyCall?
    ensures Open(Step(s, e, victim).state, id) ==> Open(s, id) && Step(s, e, victim).state.challenges[id] == s.challenges[id]
  {
    if e.CreatePreAuthCall? {
      CreateEnds(s, e.record, victim);
    }
  }

  lemma StepTreats(s: State, e: Event, victim: Option<string>, id: string)
    ensures Treats(s, e, Step(s, e, victim), id)
  {
    match e
    case ReserveCall(r) => ReserveTreats(s, r, victim, id);
    case VerifyCall(v) => VerifyTreats(s, v, victim, id);
    case _ => QuietTreats(s, e, victim, id);
  }

  /** A challenge never yields more sessions than it was reserved: with fresh IDs, at most one. */
  lemma {:induction false} SingleUse(capacity: nat, calls: seq<Call>, id: string)
    ensures var s := Empty(capacity);
            Successes(s, calls, id) + (if Open(After(s, calls), id) then 1 else 0) <= Reservations(s, calls, id)
  {
    if calls != [] {
      var s, front, call := Empty(capacity), calls[..|calls| - 1], calls[|calls| - 1];
      SingleUse(capacity, front, id);
      StepTreats(After(s, front), call.event, call.victim, id);
    }
  }

  /** While a challenge can still be used, its attempts are the refusals it has met, up to five. */
  predicate Tallied(s: State, id: string, clock: Time, failures: nat)
  {
    Open(s, id) && clock < s.challenges[id].reservation.expiresAt ==>
      && s.challenges[id].reservation.issuedAt <= clock
      && s.challenges[id].attempts == if failures < ATTEMPTS then failures else ATTEMPTS
  }

  lemma {:induction false} AttemptsAreFailures(capacity: nat, start: Time, calls: seq<Call>, id: string)
    requires Ordered(start, calls)
    ensures var s := Empty(capacity);
            Tallied(After(s, calls), id, Clock(start, calls), Failures(s, calls, id))
  {
    if calls != [] {
      var s, front, call := Empty(capacity), calls[..|calls| - 1], calls[|calls| - 1];
      AttemptsAreFailures(capacity, start, front, id);
      StepTreats(After(s, front), call.event, call.victim, id);
    }
  }

  /** After five refusals no later code for that reservation succeeds, even the right one. */
  lemma FiveFailuresEndIt(capacity: nat, start: Time, calls: seq<Call>, v: Verification, victim: Option<string>)
    requires Ordered(start, calls + [Call(VerifyCall(v), victim)])
    requires Failures(Empty(capacity), calls, v.id) >= ATTEMPTS
    ensures !Verify(After(Empty(capacity), calls), v, victim).answer.Granted?
  {
    var s := Empty(capacity);
    var more := calls + [Call(VerifyCall(v), victim)];
    assert more[..|more| - 1] == calls;
    AttemptsAreFailures(capacity, start, calls, v.id);
    StepTreats(After(s, calls), VerifyCall(v), victim, v.id);
  }

  predicate PartOf(part: map<string, Session>, sessions: map<string, Session>)
  {
    forall id :: id in part ==> id in sessions && part[id] == sessions[id]
  }

  /** ErrUnavailable costs no code: challenges, index and identities stand, and no session was made. */
  lemma UnavailableKeepsTheCode(s: State, v: Verification, victim: Option<string>)
    requires Verify(s, v, victim).answer == Unavailable
    ensures var t := Verify(s, v, victim).state;
            t.challenges == s.challenges && t.active == s.active && t.identities == s.identities && PartOf(t.sessions, s.sessions)
    ensures v.id in s.challenges && Usable(s.challenges[v.id], v.now) && Matches(s.challenges[v.id].reservation, v)
  {
    var p := Prune(s, v.now);
    UnavailableMeansGrant(Charged(p, v), v, victim);
  }

  lemma UnavailableMeansGrant(q: State, v: Verification, victim: Option<string>)
    requires Judge(q, v, victim).answer == Unavailable
    ensures var t := Judge(q, v, victim).state;
            t == q.(sessions := t.sessions) && PartOf(t.sessions, q.sessions)
    ensures v.id in q.challenges && Usable(q.challenges[v.id], v.now) && Matches(q.challenges[v.id].reservation, v)
  {
    if v.id in q.challenges && Usable(q.challenges[v.id], v.now) && !Matches(q.challenges[v.id].reservation, v) {
      MissTreats(q, v);
    }
  }

  /** So the same code, with a sound new session, then succeeds unless a guard of this store or of the source refuses. */
  lemma RetryAfterUnavailable(s: State, v: Verification, victim: Option<string>, session: SessionRecord, other: Option<string>)
    requires Verify(s, v, victim).answer == Unavailable
    requires GoodSession(session, v.now) && session.id !in s.sessions
    ensures var again := Verify(Verify(s, v, victim).state, v.(session := session), other);
            again.answer.Granted? || again.full || (again.answer == RateLimited && !again.charged)
  {
    UnavailableKeepsTheCode(s, v, victim);
    var t := Verify(s, v, victim).state;
    RetryGrants(t, v.(session := session), other);
  }

  lemma RetryGrants(t: State, v: Verification, victim: Option<string>)
    requires v.id in t.challenges && Usable(t.challenges[v.id], v.now) && Matches(t.challenges[v.id].reservation, v)
    requires GoodSession(v.session, v.now) && v.session.id !in t.sessions
    ensures var again := Verify(t, v, victim);
            again.answer.Granted? || again.full || (again.answer == RateLimited && !again.charged)
  {
  }
}

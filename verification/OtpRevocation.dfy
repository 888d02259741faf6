/** RevokeSession looks at no clock: over which runs it answers as the store that never forgets, and a run where it does not. */
module OtpRevocation {
  import opened Wrappers
  import opened Otp
  import opened OtpRuns
  import opened OtpReference

  /** Some verification in the run was granted with this session. */
  predicate Made(s: State, calls: seq<Call>, id: string)
  {
    calls != [] && (Made(s, calls[..|calls| - 1], id) || Makes(calls[|calls| - 1].event, OutcomeOf(s, calls), id))
  }

  predicate Makes(e: Event, o: Outcome, id: string)
  {
    e.VerifyCall? && e.attempt.session.id == id && o.answer.Granted?
  }

  /** Some call of the run found the session stored and left it gone. */
  predicate Reclaimed(s: State, calls: seq<Call>, id: string)
  {
    calls != [] &&
    (Reclaimed(s, calls[..|calls| - 1], id)
     || (id in After(s, calls[..|calls| - 1]).sessions && id !in After(s, calls).sessions))
  }

  /** Time in order, reclaims among the dead, new IDs new and no capacity guard refusing. */
  predicate Smooth(capacity: nat, start: Time, calls: seq<Call>)
  {
    capacity > 0 && Ordered(start, calls) && Lawful(Empty(capacity), calls) && Roomy(Empty(capacity), calls)
  }

  lemma VerifyInSessions(a: Archive, v: Verification)
    ensures var r := VerifyIn(a, v);
            if r.answer.Granted? then
              r.archive.sessions.Keys == a.sessions.Keys + {v.session.id} && (forall id :: id in a.sessions && id != v.session.id ==> r.archive.sessions[id] == a.sessions[id])
              && r.archive.sessions[v.session.id].active && GoodSession(v.session, v.now)
              && r.archive.sessions[v.session.id].record.lastSeenAt == v.now && r.archive.sessions[v.session.id].record.expiresAt == v.session.expiresAt
            else r.archive.sessions == a.sessions
  {
  }

  /** The archive gains a session only by granting it, and never loses one. */
  lemma ArchiveGains(a: Archive, e: Event, id: string)
    ensures id in StepIn(a, e).archive.sessions
            <==> id in a.sessions || (e.VerifyCall? && e.attempt.session.id == id && StepIn(a, e).answer.Granted?)
  {
    match e
    case VerifyCall(v) => VerifyInSessions(a, v);
    case _ =>
  }

  lemma {:induction false} MadeIsArchived(capacity: nat, start: Time, calls: seq<Call>, id: string)
    requires Smooth(capacity, start, calls)
    ensures id in Replayed(calls).sessions <==> Made(Empty(capacity), calls, id)
  {
    if calls != [] {
      var front, call := calls[..|calls| - 1], calls[|calls| - 1];
      MadeIsArchived(capacity, start, front, id);
      ArchiveGains(Replayed(front), call.event, id);
      if call.event.VerifyCall? {
        AnswersAgree(capacity, start, calls);
      }
    }
  }

  /** A session the archive has just granted is alive. */
  lemma NewIsAlive(a: Archive, e: Event, id: string, clock: Time)
    requires id !in a.sessions && id in StepIn(a, e).archive.sessions
    ensures !SessionDead(StepIn(a, e).archive.sessions[id], Later(clock, e))
  {
    ArchiveGains(a, e, id);
    VerifyInSessions(a, e.attempt);
  }

  /** The store gains a session only by a call that presents its ID for a grant. */
  lemma AdmitGains(q: State, v: Verification, c: Challenge, id: string)
    ensures id in Admit(q, v, c).state.sessions ==> id in q.sessions || id == v.session.id
  {
  }

  lemma GrantGains(q: State, v: Verification, c: Challenge, victim: Option<string>, id: string)
    ensures id in Grant(q, v, c, victim).state.sessions ==> id in q.sessions || id == v.session.id
  {
    AdmitGains(q, v, c, id);
    if victim.Some? {
      AdmitGains(DropSession(q, victim.value), v, c, id);
    }
  }

  lemma JudgeGains(q: State, v: Verification, victim: Option<string>, id: string)
    ensures id in Judge(q, v, victim).state.sessions ==> id in q.sessions || id == v.session.id
  {
    if v.id in q.challenges {
      GrantGains(q, v, q.challenges[v.id], victim, id);
    }
  }

  lemma VerifyGains(s: State, v: Verification, victim: Option<string>, id: string)
    ensures id in Verify(s, v, victim).state.sessions ==> id in s.sessions || id == v.session.id
  {
    JudgeGains(Charged(Prune(s, v.now), v), v, victim, id);
  }

  lemma StepGains(s: State, e: Event, victim: Option<string>, id: string)
    ensures id in Step(s, e, victim).state.sessions ==> id in s.sessions || (e.VerifyCall? && id == e.attempt.session.id)
  {
    match e
    case ReserveCall(r) => ReserveElsewhere(s, r, victim);
    case VerifyCall(v) => VerifyGains(s, v, victim, id);
    case CreatePreAuthCall(r) => CreateEnds(s, r, victim);
    case _ =>
  }

  /** What the archive has and the store has not is exactly what the run reclaimed. */
  lemma {:induction false} ReclaimedExactly(capacity: nat, start: Time, calls: seq<Call>, id: string)
    requires Smooth(capacity, start, calls)
    ensures Reclaimed(Empty(capacity), calls, id) <==> id in Replayed(calls).sessions && id !in After(Empty(capacity), calls).sessions
  {
    if calls != [] {
      var front, call := calls[..|calls| - 1], calls[|calls| - 1];
      var s, a := After(Empty(capacity), front), Replayed(front);
      ReclaimedExactly(capacity, start, front, id);
      RunsRefine(capacity, start, front);
      RunsRefine(capacity, start, calls);
      ArchiveGains(a, call.event, id);
      StepGains(s, call.event, call.victim, id);
      if id !in a.sessions && id in Replayed(calls).sessions {
        NewIsAlive(a, call.event, id, Clock(start, front));
      }
    }
  }

  /**
    Over any run the two stores answer a RevokeSession differently exactly when the presented session was
    reclaimed by the run, was not revoked, and its digest matches.
    */
  lemma RevokeAgreesExactly(capacity: nat, start: Time, calls: seq<Call>, p: SessionProof)
    requires Smooth(capacity, start, calls)
    ensures var s, a := After(Empty(capacity), calls), Replayed(calls);
            Reclaimed(Empty(capacity), calls, p.id) ==> p.id in a.sessions
    ensures var s, a := After(Empty(capacity), calls), Replayed(calls);
            Revoke(s, p).answer != RevokeIn(a, p).answer
            <==> Reclaimed(Empty(capacity), calls, p.id) && a.sessions[p.id].active && a.sessions[p.id].record.digest == p.digest
  {
    ReclaimedExactly(capacity, start, calls, p.id);
    RunsRefine(capacity, start, calls);
  }

  /** So they agree on every session that was never made, is already revoked, has another digest, or is alive at the clock. */
  lemma RevokeAgreesOnTheLiving(capacity: nat, start: Time, calls: seq<Call>, p: SessionProof)
    requires Smooth(capacity, start, calls)
    ensures var s, a := After(Empty(capacity), calls), Replayed(calls);
            Made(Empty(capacity), calls, p.id) ==> p.id in a.sessions
    ensures var s, a := After(Empty(capacity), calls), Replayed(calls);
            !Made(Empty(capacity), calls, p.id) || !a.sessions[p.id].active || a.sessions[p.id].record.digest != p.digest
            || !SessionDead(a.sessions[p.id], Clock(start, calls))
            ==> Revoke(s, p).answer == RevokeIn(a, p).answer
  {
    MadeIsArchived(capacity, start, calls, p.id);
    ReclaimedExactly(capacity, start, calls, p.id);
    RevokeAgreesExactly(capacity, start, calls, p);
    RunsRefine(capacity, start, calls);
  }

  // ------------------------------------------------- a run on which they differ

  const LATER := 2 * HOUR
  const PERSON := Identity("i", "e", 0)

  function Asking(id: string, now: Time): Reservation
  {
    Reservation(id, "e", "k", Browser, 0, 0, now, now + 10, "x")
  }

  /** A session that lives for five nanoseconds. */
  function Record(id: string, digest: Digest, now: Time): SessionRecord
  {
    SessionRecord(id, "", digest, 0, now, now, now + 5)
  }

  function Answering(id: string, session: SessionRecord, now: Time): Verification
  {
    Verification(id, "e", "k", Browser, 0, 0, now, "x", "i", session)
  }

  const REVOKE := SessionProof("s", 7, 0, LATER)

  /** On a store of one entry: session s is made and expires, and making session t reclaims it. */
  function TwoSessions(): seq<Call>
  {
    [Call1(), Call2(), Call3(), Call4()]
  }

  function Granted1(id: string, digest: Digest, now: Time): Session
  {
    Session(Record(id, digest, now).(identityId := "i"), PERSON, true)
  }

  function State1(): State
  {
    Empty(1).(challenges := map["a" := Challenge(Asking("a", 0), 0, true)], active := map[Holder(Browser, "e") := "a"],
              budgets := Ledger(map["e" := [0]], map["x" := [0]], map[], map[], map[]))
  }

  function State2(): State
  {
    Empty(1).(challenges := map["a" := Challenge(Asking("a", 0), 0, false)], identities := map["e" := PERSON],
              sessions := map["s" := Granted1("s", 7, 0)],
              budgets := Ledger(map["e" := [0]], map["x" := [0]], map[], map[], map["x" := [0]]))
  }

  function State3(): State
  {
    State2().(challenges := map["b" := Challenge(Asking("b", LATER), 0, true)], active := map[Holder(Browser, "e") := "b"],
              budgets := Ledger(map["e" := [LATER]], map["x" := [LATER]], map[], map[], map[]))
  }

  function State4(): State
  {
    State2().(challenges := map["b" := Challenge(Asking("b", LATER), 0, false)], sessions := map["t" := Granted1("t", 8, LATER)],
              budgets := Ledger(map["e" := [LATER]], map["x" := [LATER]], map[], map[], map["x" := [LATER]]))
  }

  /** A first use under a key. */
  lemma FirstUse(key: string, now: Time)
    ensures Spend(map[], key, now) == map[key := [now]]
  {
    assert Get(map[], key) + [now] == [now];
  }

  /** Opening a challenge in a store that holds none. */
  lemma OpensAlone(s: State, r: Reservation)
    requires s.challenges == map[] && s.active == map[] && s.budgets == Ledger(map[], map[], map[], map[], map[]) && s.capacity == 1
    ensures Place(s, r)
            == Plain(s.(challenges := map[r.id := Challenge(r, 0, true)], active := map[ActiveKey(r) := r.id],
                        budgets := Ledger(map[r.email := [r.issuedAt]], map[r.source := [r.issuedAt]], map[], map[], map[])), Done)
  {
    FirstUse(r.email, r.issuedAt);
    FirstUse(r.source, r.issuedAt);
    assert Closed(s, ActiveKey(r)) == map[];
  }

  lemma Step1()
    ensures Reserve(Empty(1), Asking("a", 0), None) == Plain(State1(), Done)
  {
    assert Prune(Empty(1), 0) == Empty(1);
    OpensAlone(Empty(1), Asking("a", 0));
  }

  /** A matching code, a sound session and room: the grant in a store whose only challenge this is. */
  lemma GrantsAlone(q: State, v: Verification)
    requires v.id in q.challenges && q.challenges == map[v.id := q.challenges[v.id]] && q.active == map[ActiveKey(q.challenges[v.id].reservation) := v.id]
    requires q.sessions == map[] && q.capacity == 1 && q.challenges[v.id].reservation.email == "e"
    requires v.identityId == "i" && (q.identities == map["e" := PERSON] || (q.identities == map[] && v.now == 0))
    ensures Admit(q, v, q.challenges[v.id])
            == Plain(q.(challenges := map[v.id := q.challenges[v.id].(active := false)], active := map[], identities := map["e" := PERSON],
                        sessions := map[v.session.id := Session(v.session.(identityId := "i"), PERSON, true)]), Granted(PERSON))
  {
    assert q.active - {ActiveKey(q.challenges[v.id].reservation)} == map[];
  }

  lemma Step2()
    ensures Verify(State1(), Answering("a", Record("s", 7, 0), 0), None) == Plain(State2(), Granted(PERSON)).(charged := true)
  {
    var v := Answering("a", Record("s", 7, 0), 0);
    KeepsRecent(map["e" := [0]], 0);
    KeepsRecent(map["x" := [0]], 0);
    assert Prune(State1(), 0) == State1();
    FirstUse("x", 0);
    GrantsAlone(Charged(State1(), v), v);
    assert Judge(Charged(State1(), v), v, None) == Grant(Charged(State1(), v), v, Challenge(Asking("a", 0), 0, true), None);
  }

  lemma KeepsRecent(b: Budgets, now: Time)
    requires forall key :: key in b ==> b[key] != [] && b[key][0] > now - HOUR
    ensures Pruned(b, now) == b
  {
  }

  /** A single use two hours ago is forgotten. */
  lemma ForgetsOld(b: Budgets, now: Time)
    requires forall key :: key in b ==> |b[key]| == 1 && b[key][0] <= now - HOUR
    ensures Pruned(b, now) == map[]
  {
    forall key | key in b ensures Recent(b[key], now) == [] {
      assert b[key][1..] == [];
    }
  }

  lemma Step3()
    ensures Reserve(State2(), Asking("b", LATER), Some("a")) == Plain(State3(), Done)
  {
    var p := Prune(State2(), LATER);
    ForgetsOld(map["e" := [0]], LATER);
    ForgetsOld(map["x" := [0]], LATER);
    assert p.budgets == Ledger(map[], map[], map[], map[], map[]);
    assert DropChallenge(p, "a") == p.(challenges := map[]);
    OpensAlone(DropChallenge(p, "a"), Asking("b", LATER));
  }

  lemma Step4()
    ensures Verify(State3(), Answering("b", Record("t", 8, LATER), LATER), Some("s")) == Plain(State4(), Granted(PERSON)).(charged := true)
  {
    var v := Answering("b", Record("t", 8, LATER), LATER);
    KeepsRecent(map["e" := [LATER]], LATER);
    KeepsRecent(map["x" := [LATER]], LATER);
    assert Prune(State3(), LATER) == State3();
    FirstUse("x", LATER);
    var q := Charged(State3(), v);
    assert DropSession(q, "s") == q.(sessions := map[]);
    GrantsAlone(DropSession(q, "s"), v);
    assert Judge(q, v, Some("s")) == Grant(q, v, Challenge(Asking("b", LATER), 0, true), Some("s"));
  }

  /** One more call at the end of a smooth run. */
  lemma OneMoreCall(capacity: nat, start: Time, front: seq<Call>, call: Call)
    requires Smooth(capacity, start, front) && Named(call.event) && Choice(After(Empty(capacity), front), call.event, call.victim)
    requires Clock(start, front) <= Later(Clock(start, front), call.event)
    requires !Step(After(Empty(capacity), front), call.event, call.victim).full && Fresh(Replayed(front), call.event)
    ensures Smooth(capacity, start, front + [call])
    ensures After(Empty(capacity), front + [call]) == Step(After(Empty(capacity), front), call.event, call.victim).state
    ensures OutcomeOf(Empty(capacity), front + [call]) == Step(After(Empty(capacity), front), call.event, call.victim)
    ensures Replayed(front + [call]) == StepIn(Replayed(front), call.event).archive
    ensures Clock(start, front + [call]) == Later(Clock(start, front), call.event)
  {
    var more := front + [call];
    assert more[..|more| - 1] == front;
  }

  lemma Nothing(capacity: nat)
    requires capacity > 0
    ensures Smooth(capacity, 0, []) && After(Empty(capacity), []) == Empty(capacity) && Replayed([]) == Blank() && Clock(0, []) == 0
  {
  }

  /** The archive notes a challenge only when it is reserved. */
  lemma ArchiveReserves(a: Archive, e: Event, id: string)
    ensures id in StepIn(a, e).archive.challenges ==> id in a.challenges || (e.ReserveCall? && e.reservation.id == id)
  {
    match e
    case VerifyCall(v) => VerifyInChallenges(a, v);
    case _ =>
  }

  lemma VerifyInChallenges(a: Archive, v: Verification)
    ensures VerifyIn(a, v).archive.challenges.Keys == a.challenges.Keys
  {
  }

  function Call1(): Call
  {
    Call(ReserveCall(Asking("a", 0)), None)
  }

  function Call2(): Call
  {
    Call(VerifyCall(Answering("a", Record("s", 7, 0), 0)), None)
  }

  function Call3(): Call
  {
    Call(ReserveCall(Asking("b", LATER)), Some("a"))
  }

  function Call4(): Call
  {
    Call(VerifyCall(Answering("b", Record("t", 8, LATER), LATER)), Some("s"))
  }

  /** A prefix of the run: smooth, ending in the given state at the given time, with these IDs still new. */
  ghost predicate Reached(calls: seq<Call>, s: State, now: Time)
  {
    Smooth(1, 0, calls) && After(Empty(1), calls) == s && Clock(0, calls) == now
  }

  lemma Extend(front: seq<Call>, call: Call, s: State, t: State, answer: Answer, charged: bool, before: Time, now: Time)
    requires Reached(front, s, before) && before <= now == Later(before, call.event) && Named(call.event) && Choice(s, call.event, call.victim)
    requires Step(s, call.event, call.victim) == Outcome(t, answer, false, charged) && Fresh(Replayed(front), call.event)
    ensures Reached(front + [call], t, now) && OutcomeOf(Empty(1), front + [call]).answer == answer
    ensures Replayed(front + [call]) == StepIn(Replayed(front), call.event).archive
  {
    OneMoreCall(1, 0, front, call);
  }

  /** From any run that ends in s, the call ends in t at the given time, once its IDs are new. */
  ghost predicate Leads(call: Call, s: State, t: State, now: Time)
  {
    forall front, before :: Reached(front, s, before) && before <= now && Fresh(Replayed(front), call.event) ==> Reached(front + [call], t, now)
  }

  lemma ReserveLeads(r: Reservation, victim: Option<string>, s: State, t: State)
    requires r.id != "" && Choice(s, ReserveCall(r), victim) && Reserve(s, r, victim) == Plain(t, Done)
    ensures Leads(Call(ReserveCall(r), victim), s, t, r.issuedAt)
  {
    var call := Call(ReserveCall(r), victim);
    forall front, before | Reached(front, s, before) && before <= r.issuedAt && Fresh(Replayed(front), call.event)
      ensures Reached(front + [call], t, r.issuedAt) {
      Extend(front, call, s, t, Done, false, before, r.issuedAt);
    }
  }

  lemma VerifyLeads(v: Verification, victim: Option<string>, s: State, t: State)
    requires Choice(s, VerifyCall(v), victim) && Verify(s, v, victim) == Plain(t, Granted(PERSON)).(charged := true)
    ensures Leads(Call(VerifyCall(v), victim), s, t, v.now)
  {
    var call := Call(VerifyCall(v), victim);
    forall front, before | Reached(front, s, before) && before <= v.now && Fresh(Replayed(front), call.event)
      ensures Reached(front + [call], t, v.now) {
      Extend(front, call, s, t, Granted(PERSON), true, before, v.now);
    }
  }

  /** The archive along one more call. */
  lemma ReplayedNext(front: seq<Call>, call: Call)
    ensures Replayed(front + [call]) == StepIn(Replayed(front), call.event).archive
  {
    assert (front + [call])[..|front|] == front;
  }

  /** The challenges and sessions a run's archive may hold: those its own calls name. */
  predicate Holds(calls: seq<Call>, challenges: set<string>, sessions: set<string>)
  {
    Replayed(calls).challenges.Keys <= challenges && Replayed(calls).sessions.Keys <= sessions
  }

  lemma HoldsReserve(front: seq<Call>, call: Call, challenges: set<string>, sessions: set<string>)
    requires call.event.ReserveCall? && Holds(front, challenges, sessions)
    ensures Holds(front + [call], challenges + {call.event.reservation.id}, sessions)
    ensures Replayed(front + [call]).sessions == Replayed(front).sessions
  {
    ReplayedNext(front, call);
    ReserveInElsewhere(Replayed(front), call.event.reservation);
    forall id | id in Replayed(front + [call]).challenges ensures id in challenges + {call.event.reservation.id} {
      ArchiveReserves(Replayed(front), call.event, id);
    }
  }

  lemma HoldsVerify(front: seq<Call>, call: Call, challenges: set<string>, sessions: set<string>)
    requires call.event.VerifyCall? && Holds(front, challenges, sessions)
    ensures Holds(front + [call], challenges, sessions + {call.event.attempt.session.id})
    ensures forall id :: id in Replayed(front).sessions && id != call.event.attempt.session.id ==>
              id in Replayed(front + [call]).sessions && Replayed(front + [call]).sessions[id] == Replayed(front).sessions[id]
  {
    ReplayedNext(front, call);
    VerifyInChallenges(Replayed(front), call.event.attempt);
    VerifyInSessions(Replayed(front), call.event.attempt);
  }

  lemma Leads1()
    ensures Leads(Call1(), Empty(1), State1(), 0) && Leads(Call2(), State1(), State2(), 0)
  {
    Step1();
    ReserveLeads(Asking("a", 0), None, Empty(1), State1());
    Step2();
    VerifyLeads(Answering("a", Record("s", 7, 0), 0), None, State1(), State2());
  }

  lemma Leads2()
    ensures Leads(Call3(), State2(), State3(), LATER) && Leads(Call4(), State3(), State4(), LATER)
  {
    Step3();
    ReserveLeads(Asking("b", LATER), Some("a"), State2(), State3());
    Step4();
    VerifyLeads(Answering("b", Record("t", 8, LATER), LATER), Some("s"), State3(), State4());
  }

  predicate Kept(a: Archive, b: Archive, made: string)
  {
    forall id :: id in a.sessions && id != made ==> id in b.sessions && b.sessions[id] == a.sessions[id]
  }

  lemma Led(front: seq<Call>, call: Call, s: State, t: State, before: Time, now: Time)
    requires Reached(front, s, before) && before <= now && Fresh(Replayed(front), call.event) && Leads(call, s, t, now)
    ensures Reached(front + [call], t, now)
  {
  }

  /** One sign-in: a reservation and the right answer. */
  lemma SignIn(front: seq<Call>, one: Call, two: Call, s: State, t: State, u: State, before: Time, now: Time, challenges: set<string>, sessions: set<string>)
    requires one.event.ReserveCall? && two.event.VerifyCall? && before <= now
    requires Reached(front, s, before) && Holds(front, challenges, sessions)
    requires one.event.reservation.id !in challenges && two.event.attempt.session.id !in sessions
    requires Leads(one, s, t, now) && Leads(two, t, u, now)
    ensures Reached(front + [one] + [two], u, now)
    ensures Holds(front + [one] + [two], challenges + {one.event.reservation.id}, sessions + {two.event.attempt.session.id})
    ensures Kept(Replayed(front), Replayed(front + [one] + [two]), two.event.attempt.session.id)
  {
    Led(front, one, s, t, before, now);
    HoldsReserve(front, one, challenges, sessions);
    Led(front + [one], two, t, u, now, now);
    HoldsVerify(front + [one], two, challenges + {one.event.reservation.id}, sessions);
  }

  lemma AtFirst()
    ensures Reached([], Empty(1), 0) && Holds([], {}, {})
  {
  }

  /** Two sign-ins from an empty store, with nothing written out. */
  lemma BothSignIns(one: Call, two: Call, three: Call, four: Call, s1: State, s2: State, s3: State, s4: State, now: Time, half: seq<Call>, calls: seq<Call>)
    requires one.event.ReserveCall? && two.event.VerifyCall? && three.event.ReserveCall? && four.event.VerifyCall? && 0 <= now
    requires Leads(one, Empty(1), s1, 0) && Leads(two, s1, s2, 0) && Leads(three, s2, s3, now) && Leads(four, s3, s4, now)
    requires one.event.reservation.id != three.event.reservation.id && two.event.attempt.session.id != four.event.attempt.session.id
    requires half == [] + [one] + [two] && calls == half + [three] + [four]
    ensures Reached(half, s2, 0) && Reached(calls, s4, now) && Kept(Replayed(half), Replayed(calls), four.event.attempt.session.id)
  {
    AtFirst();
    SignIn([], one, two, Empty(1), s1, s2, 0, 0, {}, {});
    SignIn(half, three, four, s2, s3, s4, 0, now, {} + {one.event.reservation.id}, {} + {two.event.attempt.session.id});
  }

  lemma AllFour(half: seq<Call>, calls: seq<Call>)
    requires half == [Call1(), Call2()] && calls == TwoSessions()
    ensures Reached(half, State2(), 0) && Reached(calls, State4(), LATER) && Kept(Replayed(half), Replayed(calls), "t")
  {
    Leads1();
    Leads2();
    BothSignIns(Call1(), Call2(), Call3(), Call4(), State1(), State2(), State3(), State4(), LATER, half, calls);
  }

  /** The archive still holds session s, unrevoked, and the store has reclaimed it. */
  lemma StillArchived(half: seq<Call>, calls: seq<Call>)
    requires half == [Call1(), Call2()] && calls == TwoSessions()
    ensures "s" in Replayed(calls).sessions && Replayed(calls).sessions["s"] == Granted1("s", 7, 0)
    ensures Reclaimed(Empty(1), calls, "s")
  {
    AllFour(half, calls);
    RunsRefine(1, 0, half);
    ReclaimedExactly(1, 0, calls, "s");
  }

  /**
    The difference is real. On a store of one entry, after two smooth sign-ins two hours apart, revoking
    the first session is refused, where the store that never forgets still revokes it.
    */
  lemma RevokeCanDiffer(calls: seq<Call>)
    requires calls == TwoSessions()
    ensures Smooth(1, 0, calls + [Call(RevokeCall(REVOKE), None)])
    ensures OutcomeOf(Empty(1), calls + [Call(RevokeCall(REVOKE), None)]).answer == BadSession
    ensures StepIn(Replayed(calls), RevokeCall(REVOKE)).answer == Done
    ensures Reclaimed(Empty(1), calls, "s")
  {
    AllFour([Call1(), Call2()], calls);
    StillArchived([Call1(), Call2()], calls);
    RevokeLast(calls, REVOKE, State4(), LATER);
  }

  lemma RevokeLast(calls: seq<Call>, p: SessionProof, s: State, now: Time)
    requires Reached(calls, s, now) && p.id !in s.sessions
    requires p.id in Replayed(calls).sessions && Replayed(calls).sessions[p.id].active && Replayed(calls).sessions[p.id].record.digest == p.digest
    ensures Smooth(1, 0, calls + [Call(RevokeCall(p), None)])
    ensures OutcomeOf(Empty(1), calls + [Call(RevokeCall(p), None)]).answer == BadSession
    ensures StepIn(Replayed(calls), RevokeCall(p)).answer == Done
  {
    OneMoreCall(1, 0, calls, Call(RevokeCall(p), None));
  }
}

/** A store that never forgets, and the proof that the bounded store answers as it does. */
module OtpReference {
  import opened Wrappers
  import opened Otp
  import opened OtpRuns

  datatype Page = Page(record: PreAuthRecord, consumed: bool)

  /** Every challenge, session and pre-authentication ever made, and every use of every budget. No index, no bound. */
  datatype Archive = Archive(
    challenges: map<string, Challenge>,
    identities: map<string, Identity>,
    sessions: map<string, Session>,
    pages: map<string, Page>,
    spent: map<(Budget, string), seq<Time>>)

  function Blank(): Archive
  {
    Archive(map[], map[], map[], map[], map[])
  }

  function Spent(a: Archive, b: Budget, key: string): seq<Time>
  {
    if (b, key) in a.spent then a.spent[(b, key)] else []
  }

  function Note(a: Archive, b: Budget, key: string, now: Time): Archive
  {
    a.(spent := a.spent[(b, key) := Spent(a, b, key) + [now]])
  }

  /** The uses within the last hour, counted over the whole history. */
  function Recently(a: Archive, b: Budget, key: string, now: Time): nat
  {
    InHour(Spent(a, b, key), now - HOUR + 1)
  }

  predicate Spare(a: Archive, b: Budget, key: string, now: Time)
  {
    Recently(a, b, key, now) < Limit(b)
  }

  /** Every earlier challenge of the same purpose and email is closed, found by looking at all of them. */
  function Superseded(challenges: map<string, Challenge>, r: Reservation): map<string, Challenge>
  {
    map id | id in challenges ::
      if ActiveKey(challenges[id].reservation) == ActiveKey(r) then challenges[id].(active := false) else challenges[id]
  }

  datatype Reply = Reply(archive: Archive, answer: Answer)

  function ReserveIn(a: Archive, r: Reservation): Reply
  {
    var now := r.issuedAt;
    if !Spare(a, ToAddress, r.email, now) || !Spare(a, FromSource, r.source, now) || TooSoon(Spent(a, ToAddress, r.email), now) then
      Reply(a, RateLimited)
    else if r.id in a.challenges then Reply(a, Unavailable)
    else
      Reply(Note(Note(a.(challenges := Superseded(a.challenges, r)[r.id := Challenge(r, 0, true)]),
                      ToAddress, r.email, now), FromSource, r.source, now), Done)
  }

  function VerifyIn(a: Archive, v: Verification): Reply
  {
    if !Spare(a, Verified, v.source, v.now) then Reply(a, RateLimited)
    else JudgeIn(Note(a, Verified, v.source, v.now), v)
  }

  function JudgeIn(a: Archive, v: Verification): Reply
  {
    if v.id !in a.challenges || !Usable(a.challenges[v.id], v.now) then Reply(a, BadCode)
    else
      var c := a.challenges[v.id];
      if !Matches(c.reservation, v) then
        if !Spare(a, Failure, c.reservation.email, v.now) then Reply(a, RateLimited)
        else Reply(Note(a.(challenges := a.challenges[v.id := c.(attempts := c.attempts + 1)]), Failure, c.reservation.email, v.now), BadCode)
      else if !GoodSession(v.session, v.now) || v.session.id in a.sessions then Reply(a, Unavailable)
      else
        var identity := Resolve(a.identities, c.reservation.email, v.identityId, v.now);
        Reply(a.(identities := a.identities[c.reservation.email := identity],
                 sessions := a.sessions[v.session.id := Session(v.session.(identityId := identity.id), identity, true)],
                 challenges := a.challenges[v.id := c.(active := false)]), Granted(identity))
  }

  function InvalidateIn(a: Archive, id: string): Reply
  {
    Reply(if id in a.challenges then a.(challenges := a.challenges[id := a.challenges[id].(active := false)]) else a, Done)
  }

  function AuthenticateIn(a: Archive, p: SessionProof): Reply
  {
    if p.id in a.sessions && Presents(a.sessions[p.id], p) && (p.csrf == 0 || a.sessions[p.id].record.csrf == p.csrf) then
      Reply(a.(sessions := a.sessions[p.id := Seen(a.sessions[p.id], p.now)]), Granted(a.sessions[p.id].identity))
    else Reply(a, BadSession)
  }

  function RevokeIn(a: Archive, p: SessionProof): Reply
  {
    if p.id in a.sessions && a.sessions[p.id].active && a.sessions[p.id].record.digest == p.digest then
      Reply(a.(sessions := a.sessions[p.id := a.sessions[p.id].(active := false)]), Done)
    else Reply(a, BadSession)
  }

  function RevokeAllIn(a: Archive, p: SessionProof): Reply
  {
    if p.id in a.sessions && Presents(a.sessions[p.id], p) then
      Reply(a.(sessions := WithoutIdentity(a.sessions, a.sessions[p.id].identity.id)), Done)
    else Reply(a, BadSession)
  }

  function CreateIn(a: Archive, r: PreAuthRecord): Reply
  {
    if !WellFormed(r) then Reply(a, Unavailable)
    else if !Spare(a, Bootstrap, r.source, r.issuedAt) then Reply(a, RateLimited)
    else if r.id in a.pages then Reply(a, Unavailable)
    else Reply(Note(a.(pages := a.pages[r.id := Page(r, false)]), Bootstrap, r.source, r.issuedAt), Done)
  }

  function CheckIn(a: Archive, p: PreAuthProof): Answer
  {
    if p.id in a.pages && !a.pages[p.id].consumed && Shows(a.pages[p.id].record, p) then Done else BadPreAuth
  }

  function ConsumeIn(a: Archive, p: PreAuthProof): Reply
  {
    if CheckIn(a, p) == Done then Reply(a.(pages := a.pages[p.id := a.pages[p.id].(consumed := true)]), Done) else Reply(a, BadPreAuth)
  }

  function StepIn(a: Archive, e: Event): Reply
  {
    match e
    case ReserveCall(r) => ReserveIn(a, r)
    case VerifyCall(v) => VerifyIn(a, v)
    case InvalidateCall(id) => InvalidateIn(a, id)
    case AuthenticateCall(p) => AuthenticateIn(a, p)
    case RevokeCall(p) => RevokeIn(a, p)
    case RevokeAllCall(p) => RevokeAllIn(a, p)
    case RevokeIdentityCall(id) => Reply(a.(sessions := WithoutIdentity(a.sessions, id)), Done)
    case CreatePreAuthCall(r) => CreateIn(a, r)
    case CheckPreAuthCall(p) => Reply(a, CheckIn(a, p))
    case ConsumePreAuthCall(p) => ConsumeIn(a, p)
  }

  /** New IDs are new. */
  predicate Fresh(a: Archive, e: Event)
  {
    match e
    case ReserveCall(r) => r.id !in a.challenges
    case VerifyCall(v) => v.session.id !in a.sessions
    case CreatePreAuthCall(r) => r.id !in a.pages
    case _ => true
  }

  // ------------------------------------------------------------ refinement

  predicate ChallengesKept(kept: map<string, Challenge>, all: map<string, Challenge>, clock: Time)
  {
    && (forall id :: id in kept ==> id in all && kept[id] == all[id])
    && (forall id :: id in all && id !in kept ==> ChallengeDead(all[id], clock))
  }

  predicate SessionsKept(kept: map<string, Session>, all: map<string, Session>, clock: Time)
  {
    && (forall id :: id in kept ==> id in all && kept[id] == all[id])
    && (forall id :: id in all && id !in kept ==> SessionDead(all[id], clock))
  }

  predicate PagesKept(kept: map<string, PreAuthRecord>, all: map<string, Page>, clock: Time)
  {
    && (forall id :: id in kept ==> id in all && all[id] == Page(kept[id], false))
    && (forall id :: id in all && id !in kept ==> all[id].consumed || BrowserDead(all[id].record, clock))
  }

  ghost predicate BudgetsKept(l: Ledger, a: Archive, clock: Time)
  {
    forall b, key :: Kept(b, Get(BudgetOf(l, b), key), Spent(a, b, key), clock)
  }

  /** What is stored is the archive's; what was dropped is dead; pruned budgets recall the full histories. */
  ghost predicate Refines(s: State, a: Archive, clock: Time)
  {
    && ChallengesKept(s.challenges, a.challenges, clock)
    && SessionsKept(s.sessions, a.sessions, clock)
    && PagesKept(s.browserStates, a.pages, clock)
    && s.identities == a.identities
    && BudgetsKept(s.budgets, a, clock)
  }

  lemma {:induction false} InHourTail(h: seq<Time>, from: Time, k: nat)
    requires k <= |h|
    requires forall i :: 0 <= i < k ==> h[i] < from
    requires forall i :: k <= i < |h| ==> from <= h[i] < from + HOUR
    ensures InHour(h, from) == |h| - k
  {
    if k < |h| {
      InHourTail(h[..|h| - 1], from, k);
    } else {
      InHourNone(h, from);
    }
  }

  /** The pruned budget gives the gate the same count, and the same last send, as the whole history. */
  lemma GateAgrees(b: Budget, x: seq<Time>, h: seq<Time>, clock: Time, now: Time)
    requires Kept(b, x, h, clock) && clock <= now
    ensures |Recent(x, now)| == InHour(h, now - HOUR + 1)
    ensures TooSoon(Recent(x, now), now) == TooSoon(h, now)
  {
    assert Recent(x, now) == Recent(h, now);
    RecentCounts(h, now);
  }

  lemma RecentCounts(h: seq<Time>, now: Time)
    requires Ascending(h) && Past(h, now)
    ensures |Recent(h, now)| == InHour(h, now - HOUR + 1)
    ensures TooSoon(Recent(h, now), now) == TooSoon(h, now)
  {
    RecentIsSuffix(h, now);
    var k := |h| - |Recent(h, now)|;
    assert k < |h| ==> h[k] == Recent(h, now)[0];
    InHourTail(h, now - HOUR + 1, k);
  }

  lemma GateSame(s: State, a: Archive, clock: Time, b: Budget, key: string, now: Time)
    requires BudgetsKept(s.budgets, a, clock) && clock <= now
    ensures |Get(Pruned(BudgetOf(s.budgets, b), now), key)| == Recently(a, b, key, now)
    ensures TooSoon(Get(Pruned(BudgetOf(s.budgets, b), now), key), now) == TooSoon(Spent(a, b, key), now)
  {
    GetPruned(BudgetOf(s.budgets, b), now, key);
    GateAgrees(b, Get(BudgetOf(s.budgets, b), key), Spent(a, b, key), clock, now);
  }

  lemma SpentNoted(a: Archive, b: Budget, key: string, now: Time, c: Budget, other: string)
    ensures Spent(Note(a, b, key, now), c, other) == if (c, other) == (b, key) then Spent(a, b, key) + [now] else Spent(a, c, other)
  {
  }

  /** The archive notes exactly the uses that the store's own answers show. */
  predicate Notes(s: State, e: Event, o: Outcome, a: Archive, t: Archive, b: Budget, key: string)
  {
    if Uses(s, e, o, b, key) then TimeOf(e).Some? && Spent(t, b, key) == Spent(a, b, key) + [TimeOf(e).value]
    else Spent(t, b, key) == Spent(a, b, key)
  }

  lemma BudgetsStep(s: State, a: Archive, e: Event, victim: Option<string>, clock: Time)
    requires BudgetsKept(s.budgets, a, clock) && clock <= Later(clock, e)
    requires forall b, key :: Notes(s, e, Step(s, e, victim), a, StepIn(a, e).archive, b, key)
    ensures BudgetsKept(Step(s, e, victim).state.budgets, StepIn(a, e).archive, Later(clock, e))
  {
    var o, t := Step(s, e, victim), StepIn(a, e).archive;
    forall b, key ensures Kept(b, Get(BudgetOf(o.state.budgets, b), key), Spent(t, b, key), Later(clock, e)) {
      BudgetStep(s, a, e, victim, clock, b, key);
    }
  }

  lemma BudgetStep(s: State, a: Archive, e: Event, victim: Option<string>, clock: Time, b: Budget, key: string)
    requires Kept(b, Get(BudgetOf(s.budgets, b), key), Spent(a, b, key), clock) && clock <= Later(clock, e)
    requires Notes(s, e, Step(s, e, victim), a, StepIn(a, e).archive, b, key)
    ensures Kept(b, Get(BudgetOf(Step(s, e, victim).state.budgets, b), key), Spent(StepIn(a, e).archive, b, key), Later(clock, e))
  {
    var o := Step(s, e, victim);
    StepMoves(s, e, victim, b, key);
    KeptMoves(b, Get(BudgetOf(s.budgets, b), key), Get(BudgetOf(o.state.budgets, b), key), Spent(a, b, key),
              Uses(s, e, o, b, key), clock, TimeOf(e));
  }

  /** One call: the same answer, and the archive still refined; apart from the budgets, handled above. */
  ghost predicate Agrees(s: State, a: Archive, e: Event, o: Outcome, reply: Reply, clock: Time)
  {
    && (!e.RevokeCall? ==> o.answer == reply.answer)
    && ChallengesKept(o.state.challenges, reply.archive.challenges, clock)
    && SessionsKept(o.state.sessions, reply.archive.sessions, clock)
    && PagesKept(o.state.browserStates, reply.archive.pages, clock)
    && o.state.identities == reply.archive.identities
    && forall b, key :: Notes(s, e, o, a, reply.archive, b, key)
  }

  lemma DropChallengeKept(kept: map<string, Challenge>, all: map<string, Challenge>, clock: Time, now: Time, id: string)
    requires ChallengesKept(kept, all, clock) && clock <= now && (id in kept ==> ChallengeDead(kept[id], now))
    ensures ChallengesKept(kept - {id}, all, now)
  {
  }

  lemma OpenedKept(q: State, all: map<string, Challenge>, now: Time, r: Reservation)
    requires Indexed(q.challenges, q.active) && Counted(q.challenges)
    requires ChallengesKept(q.challenges, all, now) && r.id !in all
    ensures ChallengesKept(Opened(q, r).challenges, Superseded(all, r)[r.id := Challenge(r, 0, true)], now)
  {
    ClosedKept(q, all, now, r);
    PutChallengeKept(Closed(q, ActiveKey(r)), Superseded(all, r), now, r.id, Challenge(r, 0, true));
  }

  /** Closing through the index and closing by looking at all come to the same. */
  lemma ClosedKept(q: State, all: map<string, Challenge>, now: Time, r: Reservation)
    requires Indexed(q.challenges, q.active) && Counted(q.challenges) && ChallengesKept(q.challenges, all, now)
    ensures ChallengesKept(Closed(q, ActiveKey(r)), Superseded(all, r), now)
  {
    var key := ActiveKey(r);
    assert Closed(q, key).Keys == q.challenges.Keys;
    forall id | id in q.challenges ensures Closed(q, key)[id] == Superseded(all, r)[id] {
      ClosedOne(q, key, id);
    }
  }

  lemma ClosedOne(q: State, key: Holder, id: string)
    requires Indexed(q.challenges, q.active) && Counted(q.challenges) && id in q.challenges
    ensures Closed(q, key)[id] == if ActiveKey(q.challenges[id].reservation) == key then q.challenges[id].(active := false) else q.challenges[id]
  {
    assert key in q.active ==> q.active[key] in q.challenges;
  }

  /** The rest of the state across a reservation. */
  lemma PlaceAgrees(q: State, r: Reservation)
    ensures var t := Place(q, r).state; t.sessions == q.sessions && t.browserStates == q.browserStates && t.identities == q.identities
    ensures Place(q, r).answer == Done ==> Place(q, r).state == Opened(q, r)
    ensures !Place(q, r).full ==> Place(q, r).answer == Done
  {
  }

  lemma ReserveAnswers(s: State, a: Archive, r: Reservation, victim: Option<string>, clock: Time)
    requires Refines(s, a, clock) && clock <= r.issuedAt && r.id !in a.challenges
    requires !Reserve(s, r, victim).full
    ensures Reserve(s, r, victim).answer == ReserveIn(a, r).answer
    ensures Reserve(s, r, victim).answer == Done || Reserve(s, r, victim).answer == RateLimited
  {
    GateSame(s, a, clock, ToAddress, r.email, r.issuedAt);
    GateSame(s, a, clock, FromSource, r.source, r.issuedAt);
  }

  lemma ReserveNotes(s: State, a: Archive, r: Reservation, o: Outcome, b: Budget, key: string)
    requires o.answer == ReserveIn(a, r).answer
    ensures Notes(s, ReserveCall(r), o, a, ReserveIn(a, r).archive, b, key)
  {
    var t := a.(challenges := Superseded(a.challenges, r)[r.id := Challenge(r, 0, true)]);
    assert Spent(t, b, key) == Spent(a, b, key) && Spent(t, ToAddress, r.email) == Spent(a, ToAddress, r.email);
    SpentNoted(t, ToAddress, r.email, r.issuedAt, b, key);
    SpentNoted(t, ToAddress, r.email, r.issuedAt, FromSource, r.source);
    SpentNoted(Note(t, ToAddress, r.email, r.issuedAt), FromSource, r.source, r.issuedAt, b, key);
  }

  lemma ReserveInDone(a: Archive, r: Reservation)
    requires ReserveIn(a, r).answer == Done
    ensures ReserveIn(a, r).archive.challenges == Superseded(a.challenges, r)[r.id := Challenge(r, 0, true)]
  {
  }

  lemma ReserveInElsewhere(a: Archive, r: Reservation)
    ensures var t := ReserveIn(a, r).archive; t.sessions == a.sessions && t.pages == a.pages && t.identities == a.identities
    ensures ReserveIn(a, r).answer != Done ==> ReserveIn(a, r).archive == a
  {
  }

  /** Where an accepted reservation lands. */
  lemma ReservePlaced(s: State, r: Reservation, victim: Option<string>)
    requires Reserve(s, r, victim).answer == Done
    ensures var p := Prune(s, r.issuedAt);
            if |s.challenges| >= s.capacity then victim.Some? && Reserve(s, r, victim).state == Opened(DropChallenge(p, victim.value), r)
            else Reserve(s, r, victim).state == Opened(p, r)
  {
  }

  lemma ReserveKept(s: State, a: Archive, r: Reservation, victim: Option<string>, clock: Time)
    requires Valid(s) && ChallengesKept(s.challenges, a.challenges, clock) && clock <= r.issuedAt && r.id !in a.challenges
    requires |s.challenges| >= s.capacity ==> ChallengePick(s, r.issuedAt, victim)
    requires Reserve(s, r, victim).answer == Done
    ensures ChallengesKept(Reserve(s, r, victim).state.challenges, Superseded(a.challenges, r)[r.id := Challenge(r, 0, true)], r.issuedAt)
  {
    ReservePlaced(s, r, victim);
    PrunedValid(s, r.issuedAt);
    PlacedKept(s, Prune(s, r.issuedAt), Reserve(s, r, victim).state, a, r, victim, clock);
  }

  lemma PlacedKept(s: State, p: State, t: State, a: Archive, r: Reservation, victim: Option<string>, clock: Time)
    requires Valid(p) && p.challenges == s.challenges && p.capacity == s.capacity
    requires ChallengesKept(s.challenges, a.challenges, clock) && clock <= r.issuedAt && r.id !in a.challenges
    requires |s.challenges| >= s.capacity ==> ChallengePick(s, r.issuedAt, victim)
    requires if |s.challenges| >= s.capacity then victim.Some? && t == Opened(DropChallenge(p, victim.value), r) else t == Opened(p, r)
    ensures ChallengesKept(t.challenges, Superseded(a.challenges, r)[r.id := Challenge(r, 0, true)], r.issuedAt)
  {
    if |s.challenges| >= s.capacity {
      DropKept(p, a, r, victim.value, clock);
    } else {
      OpenedKept(p, a.challenges, r.issuedAt, r);
    }
  }

  lemma DropKept(p: State, a: Archive, r: Reservation, id: string, clock: Time)
    requires Valid(p) && ChallengesKept(p.challenges, a.challenges, clock) && clock <= r.issuedAt && r.id !in a.challenges
    requires id in p.challenges && ChallengeDead(p.challenges[id], r.issuedAt)
    ensures ChallengesKept(Opened(DropChallenge(p, id), r).challenges, Superseded(a.challenges, r)[r.id := Challenge(r, 0, true)], r.issuedAt)
  {
    DropValid(p, id);
    DropChallengeKept(p.challenges, a.challenges, clock, r.issuedAt, id);
    OpenedKept(DropChallenge(p, id), a.challenges, r.issuedAt, r);
  }

  lemma ReserveElsewhere(s: State, r: Reservation, victim: Option<string>)
    ensures var t := Reserve(s, r, victim).state; t.sessions == s.sessions && t.browserStates == s.browserStates && t.identities == s.identities
    ensures Reserve(s, r, victim).answer == RateLimited ==> Reserve(s, r, victim).state == Prune(s, r.issuedAt)
  {
    var p := Prune(s, r.issuedAt);
    PlaceAgrees(p, r);
    if victim.Some? {
      PlaceAgrees(DropChallenge(p, victim.value), r);
    }
  }

  lemma ReserveReady(s: State, a: Archive, r: Reservation, victim: Option<string>, clock: Time)
    requires Valid(s) && Refines(s, a, clock) && clock <= r.issuedAt && r.id !in a.challenges
    requires |s.challenges| >= s.capacity ==> ChallengePick(s, r.issuedAt, victim)
    requires !Reserve(s, r, victim).full
    ensures Reserve(s, r, victim).answer == ReserveIn(a, r).answer
    ensures Ready(Reserve(s, r, victim).state, ReserveIn(a, r).archive, r.issuedAt)
  {
    ReserveAnswers(s, a, r, victim, clock);
    ReadyLater(s, a, clock, r.issuedAt);
    ReserveElsewhere(s, r, victim);
    ReserveInElsewhere(a, r);
    if Reserve(s, r, victim).answer == Done {
      ReserveKept(s, a, r, victim, clock);
      ReserveInDone(a, r);
    }
  }

  lemma ReserveAgrees(s: State, a: Archive, r: Reservation, victim: Option<string>, clock: Time)
    requires Valid(s) && Refines(s, a, clock) && clock <= r.issuedAt && r.id !in a.challenges
    requires |s.challenges| >= s.capacity ==> ChallengePick(s, r.issuedAt, victim)
    requires !Reserve(s, r, victim).full
    ensures Agrees(s, a, ReserveCall(r), Reserve(s, r, victim), ReserveIn(a, r), r.issuedAt)
  {
    ReserveReady(s, a, r, victim, clock);
    forall b, key ensures Notes(s, ReserveCall(r), Reserve(s, r, victim), a, ReserveIn(a, r).archive, b, key) {
      ReserveNotes(s, a, r, Reserve(s, r, victim), b, key);
    }
  }

  lemma PutChallengeKept(kept: map<string, Challenge>, all: map<string, Challenge>, clock: Time, id: string, c: Challenge)
    requires ChallengesKept(kept, all, clock)
    ensures ChallengesKept(kept[id := c], all[id := c], clock)
  {
  }

  lemma PutSessionKept(kept: map<string, Session>, all: map<string, Session>, clock: Time, id: string, c: Session)
    requires SessionsKept(kept, all, clock)
    ensures SessionsKept(kept[id := c], all[id := c], clock)
  {
  }

  lemma DropSessionKept(kept: map<string, Session>, all: map<string, Session>, clock: Time, id: string)
    requires SessionsKept(kept, all, clock) && (id in kept ==> SessionDead(kept[id], clock))
    ensures SessionsKept(kept - {id}, all, clock)
  {
  }

  lemma WithoutKept(kept: map<string, Session>, all: map<string, Session>, clock: Time, identity: string)
    requires SessionsKept(kept, all, clock)
    ensures SessionsKept(WithoutIdentity(kept, identity), WithoutIdentity(all, identity), clock)
  {
  }

  /** Past the source gate, with the clock moved on to now. */
  ghost predicate Ready(q: State, a: Archive, now: Time)
  {
    && ChallengesKept(q.challenges, a.challenges, now)
    && SessionsKept(q.sessions, a.sessions, now)
    && PagesKept(q.browserStates, a.pages, now)
    && q.identities == a.identities
  }

  lemma ReadyLater(s: State, a: Archive, clock: Time, now: Time)
    requires Refines(s, a, clock) && clock <= now
    ensures Ready(s, a, now)
  {
  }

  lemma AdmitKept(q: State, a: Archive, v: Verification, c: Challenge)
    requires Ready(q, a, v.now)
    requires v.id in a.challenges && c == a.challenges[v.id] && Usable(c, v.now) && Matches(c.reservation, v)
    requires GoodSession(v.session, v.now) && v.session.id !in a.sessions && !Admit(q, v, c).full
    ensures Ready(Admit(q, v, c).state, JudgeIn(a, v).archive, v.now)
    ensures Admit(q, v, c).answer == JudgeIn(a, v).answer && JudgeIn(a, v).answer.Granted?
  {
    var identity := Resolve(a.identities, c.reservation.email, v.identityId, v.now);
    PutChallengeKept(q.challenges, a.challenges, v.now, v.id, c.(active := false));
    PutSessionKept(q.sessions, a.sessions, v.now, v.session.id, Session(v.session.(identityId := identity.id), identity, true));
  }

  lemma GrantKept(q: State, a: Archive, v: Verification, c: Challenge, victim: Option<string>)
    requires Ready(q, a, v.now)
    requires v.id in a.challenges && c == a.challenges[v.id] && Usable(c, v.now) && Matches(c.reservation, v)
    requires v.session.id !in a.sessions
    requires |q.sessions| >= q.capacity ==> SessionPick(q, v.now, victim)
    requires !Grant(q, v, c, victim).full
    ensures Ready(Grant(q, v, c, victim).state, JudgeIn(a, v).archive, v.now)
    ensures Grant(q, v, c, victim).answer == JudgeIn(a, v).answer && JudgeIn(a, v).answer != BadCode
  {
    if GoodSession(v.session, v.now) {
      if |q.sessions| >= q.capacity {
        DropSessionKept(q.sessions, a.sessions, v.now, victim.value);
        AdmitKept(DropSession(q, victim.value), a, v, c);
      } else {
        AdmitKept(q, a, v, c);
      }
    }
  }

  lemma MissAnswers(q: State, a: Archive, v: Verification, c: Challenge)
    requires v.id in a.challenges && c == a.challenges[v.id] && Usable(c, v.now) && !Matches(c.reservation, v)
    requires |Get(q.budgets.failures, c.reservation.email)| == Recently(a, Failure, c.reservation.email, v.now)
    requires !Miss(q, v, c).full
    ensures Miss(q, v, c).answer == JudgeIn(a, v).answer
    ensures JudgeIn(a, v).answer == BadCode ==> JudgeIn(a, v).archive.challenges == a.challenges[v.id := c.(attempts := c.attempts + 1)]
    ensures JudgeIn(a, v).answer == BadCode ==> Miss(q, v, c).state.challenges == q.challenges[v.id := c.(attempts := c.attempts + 1)]
    ensures JudgeIn(a, v).answer != BadCode ==> JudgeIn(a, v) == Reply(a, RateLimited) && Miss(q, v, c).state == q
    ensures var t, u := JudgeIn(a, v).archive, Miss(q, v, c).state;
            t.sessions == a.sessions && t.pages == a.pages && t.identities == a.identities
            && u.sessions == q.sessions && u.browserStates == q.browserStates && u.identities == q.identities
  {
  }

  lemma MissKept(q: State, a: Archive, v: Verification, c: Challenge)
    requires Ready(q, a, v.now)
    requires v.id in q.challenges && c == q.challenges[v.id] && Usable(c, v.now) && !Matches(c.reservation, v)
    requires |Get(q.budgets.failures, c.reservation.email)| == Recently(a, Failure, c.reservation.email, v.now)
    requires !Miss(q, v, c).full
    ensures Ready(Miss(q, v, c).state, JudgeIn(a, v).archive, v.now)
    ensures Miss(q, v, c).answer == JudgeIn(a, v).answer && !JudgeIn(a, v).answer.Granted?
    ensures Bumped(q, Miss(q, v, c).state, v.id) <==> JudgeIn(a, v).answer == BadCode
  {
    MissAnswers(q, a, v, c);
    PutChallengeKept(q.challenges, a.challenges, v.now, v.id, c.(attempts := c.attempts + 1));
  }

  /** What the archive writes down about one verification past the gate. */
  lemma JudgeNotes(a: Archive, v: Verification, b: Budget, key: string)
    ensures var t := JudgeIn(a, v).archive;
            if b == Failure && JudgeIn(a, v).answer == BadCode && v.id in a.challenges && Usable(a.challenges[v.id], v.now)
               && a.challenges[v.id].reservation.email == key
            then Spent(t, b, key) == Spent(a, b, key) + [v.now]
            else Spent(t, b, key) == Spent(a, b, key)
  {
    if v.id in a.challenges {
      var c := a.challenges[v.id];
      var t := a.(challenges := a.challenges[v.id := c.(attempts := c.attempts + 1)]);
      assert Spent(t, b, key) == Spent(a, b, key) && Spent(t, Failure, c.reservation.email) == Spent(a, Failure, c.reservation.email);
      SpentNoted(t, Failure, c.reservation.email, v.now, b, key);
    }
  }

  /** The two verdicts past the gate. */
  ghost predicate SameVerdict(q: State, a: Archive, v: Verification, o: Outcome, reply: Reply)
  {
    && o.answer == reply.answer
    && Ready(o.state, reply.archive, v.now)
    && (o.answer == BadCode && Bumped(q, o.state, v.id) <==> reply.answer == BadCode && v.id in a.challenges && Usable(a.challenges[v.id], v.now))
  }

  lemma JudgeAgrees(q: State, a: Archive, v: Verification, victim: Option<string>)
    requires Ready(q, a, v.now) && v.session.id !in a.sessions
    requires v.id in q.challenges ==>
               |Get(q.budgets.failures, q.challenges[v.id].reservation.email)| == Recently(a, Failure, q.challenges[v.id].reservation.email, v.now)
    requires |q.sessions| >= q.capacity ==> SessionPick(q, v.now, victim)
    requires !Judge(q, v, victim).full
    ensures SameVerdict(q, a, v, Judge(q, v, victim), JudgeIn(a, v))
  {
    assert v.id !in q.challenges && v.id in a.challenges ==> !Usable(a.challenges[v.id], v.now);
    if v.id in q.challenges && Usable(q.challenges[v.id], v.now) {
      var c := q.challenges[v.id];
      if Matches(c.reservation, v) {
        GrantKept(q, a, v, c, victim);
      } else {
        MissKept(q, a, v, c);
      }
    }
  }

  lemma VerifyGate(s: State, a: Archive, v: Verification, clock: Time)
    requires Refines(s, a, clock) && clock <= v.now
    ensures |Get(Prune(s, v.now).budgets.verifications, v.source)| == Recently(a, Verified, v.source, v.now)
    ensures Ready(Charged(Prune(s, v.now), v), Note(a, Verified, v.source, v.now), v.now)
    ensures v.id in s.challenges ==>
              var email := s.challenges[v.id].reservation.email;
              |Get(Charged(Prune(s, v.now), v).budgets.failures, email)| == Recently(Note(a, Verified, v.source, v.now), Failure, email, v.now)
  {
    GateSame(s, a, clock, Verified, v.source, v.now);
    ReadyLater(s, a, clock, v.now);
    if v.id in s.challenges {
      FailureGate(s, a, v, clock, s.challenges[v.id].reservation.email);
    }
  }

  lemma FailureGate(s: State, a: Archive, v: Verification, clock: Time, email: string)
    requires BudgetsKept(s.budgets, a, clock) && clock <= v.now
    ensures |Get(Charged(Prune(s, v.now), v).budgets.failures, email)| == Recently(Note(a, Verified, v.source, v.now), Failure, email, v.now)
  {
    GateSame(s, a, clock, Failure, email, v.now);
    SpentNoted(a, Verified, v.source, v.now, Failure, email);
  }

  lemma VerifyNotes(s: State, a: Archive, v: Verification, o: Outcome, b: Budget, key: string)
    requires o.answer == VerifyIn(a, v).answer
    requires o.charged <==> Spare(a, Verified, v.source, v.now)
    requires o.charged ==>
               (o.answer == BadCode && Bumped(s, o.state, v.id) <==>
                VerifyIn(a, v).answer == BadCode && v.id in a.challenges && Usable(a.challenges[v.id], v.now))
    requires v.id in s.challenges ==> v.id in a.challenges && s.challenges[v.id] == a.challenges[v.id]
    ensures Notes(s, VerifyCall(v), o, a, VerifyIn(a, v).archive, b, key)
  {
    SpentNoted(a, Verified, v.source, v.now, b, key);
    JudgeNotes(Note(a, Verified, v.source, v.now), v, b, key);
  }

  lemma VerifyAgrees(s: State, a: Archive, v: Verification, victim: Option<string>, clock: Time)
    requires Refines(s, a, clock) && clock <= v.now && v.session.id !in a.sessions
    requires |s.sessions| >= s.capacity ==> SessionPick(s, v.now, victim)
    requires !Verify(s, v, victim).full
    ensures Agrees(s, a, VerifyCall(v), Verify(s, v, victim), VerifyIn(a, v), v.now)
  {
    var p := Prune(s, v.now);
    var q, t, o := Charged(p, v), Note(a, Verified, v.source, v.now), Verify(s, v, victim);
    VerifyGate(s, a, v, clock);
    if Spare(a, Verified, v.source, v.now) {
      JudgeAgrees(q, t, v, victim);
    }
    forall b, key ensures Notes(s, VerifyCall(v), o, a, VerifyIn(a, v).archive, b, key) {
      VerifyNotes(s, a, v, o, b, key);
    }
  }

  lemma CreateNotes(s: State, a: Archive, r: PreAuthRecord, o: Outcome, b: Budget, key: string)
    requires o.answer == CreateIn(a, r).answer
    ensures Notes(s, CreatePreAuthCall(r), o, a, CreateIn(a, r).archive, b, key)
  {
    var t := a.(pages := a.pages[r.id := Page(r, false)]);
    assert Spent(t, b, key) == Spent(a, b, key) && Spent(t, Bootstrap, r.source) == Spent(a, Bootstrap, r.source);
    SpentNoted(t, Bootstrap, r.source, r.issuedAt, b, key);
  }

  lemma PagesLater(kept: map<string, PreAuthRecord>, all: map<string, Page>, clock: Time, now: Time, id: string)
    requires PagesKept(kept, all, clock) && clock <= now && (id in kept ==> BrowserDead(kept[id], now))
    ensures PagesKept(kept - {id}, all, now)
  {
  }

  lemma PutPage(kept: map<string, PreAuthRecord>, all: map<string, Page>, clock: Time, r: PreAuthRecord)
    requires PagesKept(kept, all, clock)
    ensures PagesKept(kept[r.id := r], all[r.id := Page(r, false)], clock)
  {
  }

  lemma CreateAgrees(s: State, a: Archive, r: PreAuthRecord, victim: Option<string>, clock: Time)
    requires Refines(s, a, clock) && (WellFormed(r) ==> clock <= r.issuedAt) && r.id !in a.pages
    requires |s.browserStates| >= s.capacity ==> BrowserPick(s, r.issuedAt, victim)
    requires !CreatePreAuth(s, r, victim).full
    ensures Agrees(s, a, CreatePreAuthCall(r), CreatePreAuth(s, r, victim), CreateIn(a, r), if WellFormed(r) then r.issuedAt else clock)
  {
    var o := CreatePreAuth(s, r, victim);
    if WellFormed(r) {
      GateSame(s, a, clock, Bootstrap, r.source, r.issuedAt);
      ReadyLater(s, a, clock, r.issuedAt);
      CreateKept(s, a, r, victim);
    }
    forall b, key ensures Notes(s, CreatePreAuthCall(r), o, a, CreateIn(a, r).archive, b, key) {
      CreateNotes(s, a, r, o, b, key);
    }
  }

  lemma CreateAnswers(s: State, a: Archive, r: PreAuthRecord, victim: Option<string>)
    requires PagesKept(s.browserStates, a.pages, r.issuedAt) && WellFormed(r) && r.id !in a.pages
    requires |Get(Prune(s, r.issuedAt).budgets.bootstraps, r.source)| == Recently(a, Bootstrap, r.source, r.issuedAt)
    requires !CreatePreAuth(s, r, victim).full
    ensures CreatePreAuth(s, r, victim).answer == CreateIn(a, r).answer
    ensures CreateIn(a, r).answer == Done || CreateIn(a, r).answer == RateLimited
    ensures CreateIn(a, r).answer == RateLimited ==> CreatePreAuth(s, r, victim).state == Prune(s, r.issuedAt) && CreateIn(a, r).archive == a
    ensures CreateIn(a, r).answer == Done ==> CreateIn(a, r).archive.pages == a.pages[r.id := Page(r, false)]
  {
  }

  lemma EnrolledKept(q: State, a: Archive, r: PreAuthRecord, t: Archive)
    requires Ready(q, a, r.issuedAt) && t.pages == a.pages[r.id := Page(r, false)]
    requires t.challenges == a.challenges && t.sessions == a.sessions && t.identities == a.identities
    ensures Ready(Enrolled(q, r), t, r.issuedAt)
  {
    PutPage(q.browserStates, a.pages, r.issuedAt, r);
  }

  lemma CreateLands(s: State, r: PreAuthRecord, victim: Option<string>)
    requires CreatePreAuth(s, r, victim).answer == Done
    ensures var p, t := Prune(s, r.issuedAt), CreatePreAuth(s, r, victim).state;
            if |s.browserStates| >= s.capacity then victim.Some? && t == Enrolled(DropBrowserState(p, victim.value), r) else t == Enrolled(p, r)
  {
  }

  lemma CreateKept(s: State, a: Archive, r: PreAuthRecord, victim: Option<string>)
    requires Ready(s, a, r.issuedAt) && WellFormed(r) && r.id !in a.pages
    requires |Get(Prune(s, r.issuedAt).budgets.bootstraps, r.source)| == Recently(a, Bootstrap, r.source, r.issuedAt)
    requires |s.browserStates| >= s.capacity ==> BrowserPick(s, r.issuedAt, victim)
    requires !CreatePreAuth(s, r, victim).full
    ensures CreatePreAuth(s, r, victim).answer == CreateIn(a, r).answer
    ensures Ready(CreatePreAuth(s, r, victim).state, CreateIn(a, r).archive, r.issuedAt)
  {
    var p, t := Prune(s, r.issuedAt), CreateIn(a, r).archive;
    CreateAnswers(s, a, r, victim);
    if CreateIn(a, r).answer == Done {
      CreateLands(s, r, victim);
      if |s.browserStates| >= s.capacity {
        PagesLater(p.browserStates, a.pages, r.issuedAt, r.issuedAt, victim.value);
        EnrolledKept(DropBrowserState(p, victim.value), a, r, t);
      } else {
        EnrolledKept(p, a, r, t);
      }
    }
  }

  lemma AuthenticateReady(s: State, a: Archive, p: SessionProof)
    requires Ready(s, a, p.now)
    ensures Ready(Authenticate(s, p).state, AuthenticateIn(a, p).archive, p.now)
    ensures Authenticate(s, p).answer == AuthenticateIn(a, p).answer
  {
    if p.id in s.sessions {
      PutSessionKept(s.sessions, a.sessions, p.now, p.id, Seen(s.sessions[p.id], p.now));
    }
  }

  lemma RevokeReady(s: State, a: Archive, p: SessionProof, now: Time)
    requires Ready(s, a, now)
    ensures Ready(Revoke(s, p).state, RevokeIn(a, p).archive, now)
  {
    if p.id in s.sessions {
      PutSessionKept(s.sessions, a.sessions, now, p.id, s.sessions[p.id].(active := false));
    }
  }

  lemma RevokeAllReady(s: State, a: Archive, p: SessionProof)
    requires Ready(s, a, p.now)
    ensures Ready(RevokeAll(s, p).state, RevokeAllIn(a, p).archive, p.now)
    ensures RevokeAll(s, p).answer == RevokeAllIn(a, p).answer
  {
    if p.id in s.sessions {
      WithoutKept(s.sessions, a.sessions, p.now, s.sessions[p.id].identity.id);
    }
  }

  lemma PreAuthReady(s: State, a: Archive, p: PreAuthProof)
    requires Ready(s, a, p.now)
    ensures CheckPreAuth(s, p) == CheckIn(a, p)
    ensures Ready(ConsumePreAuth(s, p).state, ConsumeIn(a, p).archive, p.now)
  {
  }

  lemma InvalidateReady(s: State, a: Archive, id: string, now: Time)
    requires Ready(s, a, now)
    ensures Ready(Invalidate(s, id).state, InvalidateIn(a, id).archive, now)
  {
    if id in s.challenges {
      PutChallengeKept(s.challenges, a.challenges, now, id, s.challenges[id].(active := false));
    }
  }

  lemma OtherReady(s: State, a: Archive, e: Event, victim: Option<string>, clock: Time)
    requires Refines(s, a, clock) && clock <= Later(clock, e)
    requires !e.ReserveCall? && !e.VerifyCall? && !e.CreatePreAuthCall?
    ensures !e.RevokeCall? ==> Step(s, e, victim).answer == StepIn(a, e).answer
    ensures Ready(Step(s, e, victim).state, StepIn(a, e).archive, Later(clock, e))
  {
    var now := Later(clock, e);
    ReadyLater(s, a, clock, now);
    match e
    case InvalidateCall(id) => InvalidateReady(s, a, id, now);
    case AuthenticateCall(p) => AuthenticateReady(s, a, p);
    case RevokeCall(p) => RevokeReady(s, a, p, now);
    case RevokeAllCall(p) => RevokeAllReady(s, a, p);
    case RevokeIdentityCall(id) => WithoutKept(s.sessions, a.sessions, now, id);
    case CheckPreAuthCall(p) => PreAuthReady(s, a, p);
    case ConsumePreAuthCall(p) => PreAuthReady(s, a, p);
  }

  lemma OtherAgrees(s: State, a: Archive, e: Event, victim: Option<string>, clock: Time)
    requires Refines(s, a, clock) && clock <= Later(clock, e)
    requires !e.ReserveCall? && !e.VerifyCall? && !e.CreatePreAuthCall?
    ensures Agrees(s, a, e, Step(s, e, victim), StepIn(a, e), Later(clock, e))
  {
    OtherReady(s, a, e, victim, clock);
    assert StepIn(a, e).archive.spent == a.spent;
    forall b, key ensures Notes(s, e, Step(s, e, victim), a, StepIn(a, e).archive, b, key) {
      assert Spent(StepIn(a, e).archive, b, key) == Spent(a, b, key);
    }
  }

  /** One call keeps the refinement and gets the archive's answer. */
  lemma StepAgrees(s: State, a: Archive, e: Event, victim: Option<string>, clock: Time)
    requires Valid(s) && Refines(s, a, clock) && clock <= Later(clock, e)
    requires Choice(s, e, victim) && Fresh(a, e) && !Step(s, e, victim).full
    ensures Refines(Step(s, e, victim).state, StepIn(a, e).archive, Later(clock, e))
    ensures !e.RevokeCall? ==> Step(s, e, victim).answer == StepIn(a, e).answer
  {
    match e {
      case ReserveCall(r) => ReserveAgrees(s, a, r, victim, clock);
      case VerifyCall(v) => VerifyAgrees(s, a, v, victim, clock);
      case CreatePreAuthCall(r) => CreateAgrees(s, a, r, victim, clock);
      case _ => OtherAgrees(s, a, e, victim, clock);
    }
    BudgetsStep(s, a, e, victim, clock);
  }

  function Replayed(calls: seq<Call>): Archive
  {
    if calls == [] then Blank() else StepIn(Replayed(calls[..|calls| - 1]), calls[|calls| - 1].event).archive
  }

  /** Fresh IDs, and no capacity guard refuses. */
  predicate Roomy(s: State, calls: seq<Call>)
  {
    calls == [] ||
    (Roomy(s, calls[..|calls| - 1]) && !OutcomeOf(s, calls).full && Fresh(Replayed(calls[..|calls| - 1]), calls[|calls| - 1].event))
  }

  lemma {:induction false} RunsRefine(capacity: nat, start: Time, calls: seq<Call>)
    requires capacity > 0 && Ordered(start, calls) && Lawful(Empty(capacity), calls) && Roomy(Empty(capacity), calls)
    ensures Refines(After(Empty(capacity), calls), Replayed(calls), Clock(start, calls))
  {
    if calls != [] {
      var front, call := calls[..|calls| - 1], calls[|calls| - 1];
      RunsRefine(capacity, start, front);
      RunsStayValid(capacity, front);
      StepAgrees(After(Empty(capacity), front), Replayed(front), call.event, call.victim, Clock(start, front));
    }
  }

  /**
    The bounded store agrees with the one that never forgets: over any run, whichever entries the reclaim
    loops pick, the last answer - and so every answer - is the archive's. RevokeSession is the exception (module OtpRevocation).
    */
  lemma AnswersAgree(capacity: nat, start: Time, calls: seq<Call>)
    requires capacity > 0 && Ordered(start, calls) && Lawful(Empty(capacity), calls) && Roomy(Empty(capacity), calls)
    requires calls != [] && !calls[|calls| - 1].event.RevokeCall?
    ensures OutcomeOf(Empty(capacity), calls).answer == StepIn(Replayed(calls[..|calls| - 1]), calls[|calls| - 1].event).answer
  {
    var front, call := calls[..|calls| - 1], calls[|calls| - 1];
    RunsRefine(capacity, start, front);
    RunsStayValid(capacity, front);
    StepAgrees(After(Empty(capacity), front), Replayed(front), call.event, call.victim, Clock(start, front));
  }
}

/** A sign-in that nothing disturbs wins, and what a client is told that asks for its completion again. */
module RedisRetry {
  import opened Wrappers
  import opened Otp
  import opened RedisServer
  import opened IdentityDb
  import opened RedisProtocol
  import opened RedisSafety

  lemma OneMoreAction(w: World, front: seq<Action>, a: Action, t: World)
    requires Possible(w, front) && After(w, front) == t && Enabled(t, a)
    ensures Possible(w, front + [a]) && After(w, front + [a]) == Act(t, a)
  {
    assert (front + [a])[..|front|] == front;
  }

  /** Scripts other than completion leave the markers alone. */
  lemma VerifyMarkers(s: Server, v: Verification)
    ensures VerifyScript(s, v).server.markers == s.markers && VerifyScript(s, v).server.now == s.now
  {
    var trimmed := Trimmed(s.rates, Checks(v.source), s.now);
    CheckMarkers(s.(rates := Added(trimmed, Checks(v.source), s.now, ByLease(LeaseOf(v)))), v);
  }

  lemma CheckMarkers(s: Server, v: Verification)
    ensures CheckCode(s, v).server.markers == s.markers && CheckCode(s, v).server.now == s.now
  {
    if v.id in s.codes {
      var free := s.codes[v.id].(held := None);
      MissMarkers(s.(codes := s.codes[v.id := free]), v, free);
    }
  }

  lemma MissMarkers(s: Server, v: Verification, c: Code)
    ensures CountMiss(s, v, c).server.markers == s.markers && CountMiss(s, v, c).server.now == s.now
  {
  }

  lemma ReserveMarkers(s: Server, r: Reservation)
    ensures ReserveScript(s, r).server.markers == s.markers && ReserveScript(s, r).server.now == s.now
  {
  }

  lemma ServedMarkers(s: Server, a: Action)
    ensures Served(s, a).markers == s.markers && Served(s, a).now == s.now
  {
    match a
    case UseSession(p) => SessionFrame(s, p);
    case Logout(p) => RevokeFrame(s, p);
    case LogoutAll(p) => RevokeAllFrame(s, p);
    case OpenPage(r) => PageMarkers(s, r);
    case _ =>
  }

  lemma PageMarkers(s: Server, r: PreAuthRecord)
    ensures CreatePageScript(s, r).server.markers == s.markers && CreatePageScript(s, r).server.now == s.now
  {
  }

  lemma QuietServer(w: World, a: Action)
    requires a.Hear? || a.GiveUp? || a.Ask? || a.Begin? || a.Disable? || a.Invite?
    ensures Act(w, a).server == w.server
  {
  }

  // ----------------------------------------------------- the marker's clock

  /** The server's time at the completion that made the session. */
  function MadeAt(w: World, actions: seq<Action>, session: string): Millis
    requires Made(After(w, actions).created, session)
  {
    if actions == [] || !Made(After(w, actions[..|actions| - 1]).created, session) then After(w, actions).server.now
    else MadeAt(w, actions[..|actions| - 1], session)
  }

  /** The session's client is known, and its marker stands for exactly five minutes from `at`. */
  predicate Marked(t: World, session: string, at: Millis)
  {
    && session in t.clients && at <= t.server.now
    && var lease := LeaseOf(t.clients[session].attempt);
       && (lease in t.server.markers <==> t.server.now <= at + CODE)
       && (lease in t.server.markers ==> t.server.markers[lease] == at + CODE)
  }

  /** A client's attempt is never exchanged for another. */
  lemma AttemptKept(w: World, a: Action, session: string)
    requires session in w.clients && Enabled(w, a)
    ensures session in Act(w, a).clients && Act(w, a).clients[session].attempt == w.clients[session].attempt
  {
    match a
    case Ask(_, _) =>
    case Hear(_) =>
    case GiveUp(_) =>
    case Deliver(_) =>
    case _ =>
  }

  /** A delivery makes a session only by running its own client's completion. */
  lemma DeliveryLogs(w: World, request: Request)
    requires Inv(w) && Delivered(w, request).created != w.created
    ensures request.AskComplete? && request.session in w.clients && w.clients[request.session].identity.Some?
    ensures var c := w.clients[request.session];
            c.attempt.session.id == request.session && Delivered(w, request) == CompleteFor(w, c, c.identity.value) && Creates(w.server, c.attempt)
  {
    assert request.session in w.clients ==> ClientSound(request.session, w.clients[request.session], w);
  }

  lemma CompletionWrites(w: World, c: Client, identity: Identity)
    requires Creates(w.server, c.attempt)
    ensures var t := CompleteFor(w, c, identity);
            && t.created == w.created + [Creation(c.attempt.id, c.attempt.session.id, identity)]
            && t.server.markers == w.server.markers[LeaseOf(c.attempt) := w.server.now + CODE] && t.server.now == w.server.now
  {
  }

  lemma OthersLogNothing(w: World, a: Action)
    requires !a.Deliver?
    ensures Act(w, a).created == w.created
  {
    match a
    case Ask(_, _) =>
    case Hear(_) =>
    case GiveUp(_) =>
    case _ =>
  }

  /** Only a completion makes a session, and it is its own client's. */
  lemma MadeByCompletion(w: World, a: Action)
    requires Inv(w) && Act(w, a).created != w.created
    ensures a.Deliver? && a.request.session in w.clients
    ensures var c := w.clients[a.request.session];
            && c.identity.Some? && Creates(w.server, c.attempt)
            && Act(w, a).created == w.created + [Creation(c.attempt.id, a.request.session, c.identity.value)]
            && Act(w, a).server.markers == w.server.markers[LeaseOf(c.attempt) := w.server.now + CODE]
            && Act(w, a).server.now == w.server.now
  {
    if a.Deliver? {
      DeliveryLogs(w, a.request);
      var c := w.clients[a.request.session];
      CompletionWrites(w, c, c.identity.value);
    } else {
      OthersLogNothing(w, a);
    }
  }

  /** A delivery that makes nothing leaves the markers alone. */
  lemma DeliveryMarkers(w: World, request: Request)
    requires Delivered(w, request).created == w.created
    ensures Delivered(w, request).server.markers == w.server.markers && Delivered(w, request).server.now == w.server.now
  {
    if request.session in w.clients {
      VerifyMarkers(w.server, w.clients[request.session].attempt);
    }
  }

  lemma SameLogSameMarkers(w: World, a: Action)
    requires Act(w, a).created == w.created && !a.Pass?
    ensures Act(w, a).server.markers == w.server.markers && Act(w, a).server.now == w.server.now
  {
    match a
    case ReserveCode(r) => ReserveMarkers(w.server, r);
    case Deliver(request) => DeliveryMarkers(w, request);
    case Hear(_) => QuietServer(w, a);
    case GiveUp(_) => QuietServer(w, a);
    case Ask(_, _) => QuietServer(w, a);
    case Begin(_) => QuietServer(w, a);
    case Disable(_, _) => QuietServer(w, a);
    case Invite(_) => QuietServer(w, a);
    case _ => ServedMarkers(w.server, a);
  }

  /** Another session's completion sets another marker: a session that is made has used up its code. */
  lemma OtherMarker(w: World, v: Verification, session: string)
    requires Inv(w) && Made(w.created, session) && Creates(w.server, v)
    ensures session in w.clients && LeaseOf(w.clients[session].attempt) != LeaseOf(v)
  {
    var i :| 0 <= i < |w.created| && w.created[i].session == session;
    assert CreationSound(w.created[i], w) && ClientSound(session, w.clients[session], w);
    assert CodeSound(v.id, w.server.codes[v.id], w.reserved, w.created) && HeldByProver(v.id, w.server.codes[v.id], w.clients, w.reserved);
  }

  lemma MarkedKept(w: World, a: Action, session: string, at: Millis)
    requires Inv(w) && Enabled(w, a) && Made(w.created, session) && Marked(w, session, at)
    ensures Marked(Act(w, a), session, at)
  {
    AttemptKept(w, a, session);
    if Act(w, a).created != w.created {
      MadeByCompletion(w, a);
      OtherMarker(w, w.clients[a.request.session].attempt, session);
    } else if !a.Pass? {
      SameLogSameMarkers(w, a);
    }
  }

  lemma MarkedFirst(w: World, a: Action, session: string)
    requires Inv(w) && Enabled(w, a) && !Made(w.created, session) && Made(Act(w, a).created, session)
    ensures Marked(Act(w, a), session, Act(w, a).server.now)
  {
    MadeByCompletion(w, a);
    AttemptKept(w, a, a.request.session);
    var i :| 0 <= i < |Act(w, a).created| && Act(w, a).created[i].session == session;
    assert i < |w.created| ==> w.created[i].session == session;
  }

  lemma {:induction false} MarkedSince(w: World, actions: seq<Action>, session: string)
    requires Start(w) && Possible(w, actions) && Made(After(w, actions).created, session)
    ensures Marked(After(w, actions), session, MadeAt(w, actions, session))
  {
    if actions != [] {
      var front, last := actions[..|actions| - 1], actions[|actions| - 1];
      RunsAreSafe(w, front);
      if Made(After(w, front).created, session) {
        MarkedSince(w, front, session);
        MarkedKept(After(w, front), last, session, MadeAt(w, front, session));
      } else {
        MarkedFirst(After(w, front), last, session);
      }
    }
  }

  /** The completion as the client's retry would run it now. */
  function RetryCode(t: World, c: Client): int
    requires c.identity.Some?
  {
    CompleteScript(t.server, c.attempt.id, LeaseOf(c.attempt), c.attempt.session, c.identity.value, SESSION_MS).code
  }

  /** A retry is told of its success exactly while at most five minutes have passed since the session was made, and of a failure after. */
  lemma RetryToldInTime(w: World, actions: seq<Action>, session: string)
    requires Start(w) && Possible(w, actions) && Enabled(After(w, actions), Deliver(AskComplete(session)))
    requires Made(After(w, actions).created, session)
    ensures var t := After(w, actions);
            session in t.clients && t.clients[session].identity.Some?
            && RetryCode(t, t.clients[session]) == if t.server.now <= MadeAt(w, actions, session) + CODE then 1 else 0
  {
    RetryToldExactly(w, actions, session);
    MarkedSince(w, actions, session);
  }

  /** So whatever made it, a session's completion asked for again after five minutes is told that it failed. */
  lemma LateRetryIsMisled(w: World, actions: seq<Action>, session: string, later: Millis)
    requires Start(w) && Possible(w, actions) && AskComplete(session) in After(w, actions).asked
    requires Made(After(w, actions).created, session)
    requires later >= After(w, actions).server.now && later > MadeAt(w, actions, session) + CODE
    ensures var t := After(w, actions + [Pass(later)]);
            Possible(w, actions + [Pass(later)]) && Made(t.created, session)
            && session in t.clients && t.clients[session].identity.Some? && RetryCode(t, t.clients[session]) == 0
  {
    var here, more := After(w, actions), actions + [Pass(later)];
    OneMoreAction(w, actions, Pass(later), here);
    assert more[..|more| - 1] == actions;
    RetryToldInTime(w, more, session);
  }

  // ------------------------------------------------ an undisturbed sign-in

  /** The six steps of a sign-in, with nothing in between. */
  function SignIn(v: Verification): seq<Action>
  {
    var id := v.session.id;
    [Begin(v)] + [Deliver(AskLease(id))] + [Hear(Response(AskLease(id), 1))]
    + [Ask(id, Replied)] + [Deliver(AskComplete(id))] + [Hear(Response(AskComplete(id), 1))]
  }

  predicate UnderLimit(s: Server, source: string)
  {
    |Members(Trimmed(s.rates, Checks(source), s.now), Checks(source))| < VERIFICATIONS_PER_SOURCE
  }

  /** The code is stored as presented, active and unleased. */
  predicate Waiting(s: Server, v: Verification)
  {
    v.id in s.codes && s.codes[v.id].active && !LeaseRuns(s.codes[v.id], s.now) && CodeMatches(s.codes[v.id], v)
  }

  /** Everything a sign-in needs: the code, room in the source's budget, an eligible email and a sound, fresh session. */
  predicate Ready(t: World, v: Verification)
  {
    && Waiting(t.server, v) && UnderLimit(t.server, v.source)
    && Resolution(t.db, v.email, v.identityId, v.now).verdict.Eligible?
    && v.session.id !in t.clients && ValidSession(v.session) && Duration(v.session) == SESSION_MS
  }

  /** The lease is granted exactly to the holder of a waiting code whose source is under its limit. */
  lemma GrantedExactly(s: Server, v: Verification)
    ensures VerifyScript(s, v).code == 1 <==> Waiting(s, v) && UnderLimit(s, v.source)
    ensures VerifyScript(s, v).code == 1 ==> Holds(VerifyScript(s, v).server, v.id, LeaseOf(v))
    ensures VerifyScript(s, v).server.markers == s.markers
  {
    VerifyMarkers(s, v);
  }

  /** The client holds the lease and has no session yet. */
  predicate Leased(t: World, v: Verification, c: Client)
  {
    && Holds(t.server, v.id, LeaseOf(v)) && LeaseOf(v) !in t.server.markers
    && v.session.id in t.clients && t.clients[v.session.id] == c
  }

  lemma NoMarkerYet(t: World, v: Verification)
    requires Inv(t) && v.session.id !in t.clients
    ensures LeaseOf(v) !in t.server.markers
  {
    if Made(t.created, v.session.id) {
      MadeIsKnown(t, v.session.id);
    }
    assert LeaseOf(v).session == v.session.id;
  }

  lemma MadeIsKnown(t: World, session: string)
    requires PeopleInv(t) && Made(t.created, session)
    ensures session in t.clients
  {
    var i :| 0 <= i < |t.created| && t.created[i].session == session;
    assert CreationSound(t.created[i], t);
  }

  lemma AfterLease(t: World, v: Verification)
    requires Ready(t, v) && LeaseOf(v) !in t.server.markers
    ensures var u := Act(Act(t, Begin(v)), Deliver(AskLease(v.session.id)));
            Leased(u, v, Client(v, Checking, None)) && Response(AskLease(v.session.id), 1) in u.responses && u.db == t.db
    ensures AskLease(v.session.id) in Act(t, Begin(v)).asked
  {
    GrantedExactly(t.server, v);
  }

  lemma AfterHear(t: World, v: Verification)
    requires Leased(t, v, Client(v, Checking, None))
    ensures var u := Act(t, Hear(Response(AskLease(v.session.id), 1)));
            Leased(u, v, Client(v, Resolving, None)) && u.db == t.db
  {
  }

  lemma AfterAsk(t: World, v: Verification)
    requires Leased(t, v, Client(v, Resolving, None)) && ValidSession(v.session)
    requires Resolution(t.db, v.email, v.identityId, v.now).verdict.Eligible?
    ensures var u := Act(t, Ask(v.session.id, Replied));
            Leased(u, v, Client(v, Completing, Some(Resolution(t.db, v.email, v.identityId, v.now).verdict.identity)))
            && AskComplete(v.session.id) in u.asked
  {
  }

  lemma AfterComplete(t: World, v: Verification, identity: Identity)
    requires Leased(t, v, Client(v, Completing, Some(identity)))
    ensures var u := Act(t, Deliver(AskComplete(v.session.id)));
            && Made(u.created, v.session.id) && Response(AskComplete(v.session.id), 1) in u.responses && u.asked == t.asked
            && v.session.id in u.clients && u.clients[v.session.id] == Client(v, Completing, Some(identity))
  {
    var u := Act(t, Deliver(AskComplete(v.session.id)));
    assert u.created[|t.created|].session == v.session.id;
  }

  /** The client was told: it holds its identity, and the session is there. */
  predicate SignedIn(t: World, v: Verification, identity: Identity)
  {
    && HasWon(t, v.session.id) && t.clients[v.session.id].phase.result.identity == identity
    && Made(t.created, v.session.id) && AskComplete(v.session.id) in t.asked
  }

  lemma AfterTold(t: World, v: Verification, identity: Identity)
    requires v.session.id in t.clients && t.clients[v.session.id] == Client(v, Completing, Some(identity))
    requires Made(t.created, v.session.id) && AskComplete(v.session.id) in t.asked
    ensures SignedIn(Act(t, Hear(Response(AskComplete(v.session.id), 1))), v, identity)
  {
  }

  /** From any reachable state in which a client has what a sign-in needs, undisturbed it wins the durable identity of its email. */
  lemma UndisturbedSignIn(w: World, actions: seq<Action>, v: Verification)
    requires Start(w) && Possible(w, actions) && Ready(After(w, actions), v)
    ensures Possible(w, actions + SignIn(v))
    ensures SignedIn(After(w, actions + SignIn(v)), v, Resolution(After(w, actions).db, v.email, v.identityId, v.now).verdict.identity)
  {
    RunsAreSafe(w, actions);
    NoMarkerYet(After(w, actions), v);
    StartOfSignIn(w, v, actions, After(w, actions));
    StepsOfSignIn(actions, v);
  }

  lemma StepsOfSignIn(front: seq<Action>, v: Verification)
    ensures var id := v.session.id;
            front + SignIn(v) == front + [Begin(v)] + [Deliver(AskLease(id))] + [Hear(Response(AskLease(id), 1))]
                                 + [Ask(id, Replied)] + [Deliver(AskComplete(id))] + [Hear(Response(AskComplete(id), 1))]
  {
  }

  lemma StartOfSignIn(w: World, v: Verification, front: seq<Action>, t: World)
    requires Possible(w, front) && After(w, front) == t && Ready(t, v) && LeaseOf(v) !in t.server.markers
    ensures var id := v.session.id;
            var rest := front + [Begin(v)] + [Deliver(AskLease(id))] + [Hear(Response(AskLease(id), 1))]
                        + [Ask(id, Replied)] + [Deliver(AskComplete(id))] + [Hear(Response(AskComplete(id), 1))];
            Possible(w, rest) && SignedIn(After(w, rest), v, Resolution(t.db, v.email, v.identityId, v.now).verdict.identity)
  {
    var begin, lease := Begin(v), Deliver(AskLease(v.session.id));
    AfterLease(t, v);
    OneMoreAction(w, front, begin, t);
    var u := Act(t, begin);
    OneMoreAction(w, front + [begin], lease, u);
    RestOfSignIn(w, v, front + [begin] + [lease], Act(u, lease));
  }

  lemma RestOfSignIn(w: World, v: Verification, front: seq<Action>, t: World)
    requires Possible(w, front) && After(w, front) == t && Leased(t, v, Client(v, Checking, None)) && ValidSession(v.session)
    requires Response(AskLease(v.session.id), 1) in t.responses && Resolution(t.db, v.email, v.identityId, v.now).verdict.Eligible?
    ensures var id := v.session.id;
            var rest := front + [Hear(Response(AskLease(id), 1))] + [Ask(id, Replied)] + [Deliver(AskComplete(id))] + [Hear(Response(AskComplete(id), 1))];
            Possible(w, rest) && SignedIn(After(w, rest), v, Resolution(t.db, v.email, v.identityId, v.now).verdict.identity)
  {
    var id := v.session.id;
    var hear, ask := Hear(Response(AskLease(id), 1)), Ask(id, Replied);
    AfterHear(t, v);
    OneMoreAction(w, front, hear, t);
    var u := Act(t, hear);
    AfterAsk(u, v);
    OneMoreAction(w, front + [hear], ask, u);
    EndOfSignIn(w, v, front + [hear] + [ask], Act(u, ask), Resolution(t.db, v.email, v.identityId, v.now).verdict.identity);
  }

  lemma EndOfSignIn(w: World, v: Verification, front: seq<Action>, t: World, identity: Identity)
    requires Possible(w, front) && After(w, front) == t && Leased(t, v, Client(v, Completing, Some(identity)))
    requires AskComplete(v.session.id) in t.asked
    ensures var id := v.session.id;
            var rest := front + [Deliver(AskComplete(id))] + [Hear(Response(AskComplete(id), 1))];
            Possible(w, rest) && SignedIn(After(w, rest), v, identity)
  {
    var id := v.session.id;
    var complete := Deliver(AskComplete(id));
    AfterComplete(t, v, identity);
    OneMoreAction(w, front, complete, t);
    var u := Act(t, complete);
    AfterTold(u, v, identity);
    OneMoreAction(w, front + [complete], Hear(Response(AskComplete(id), 1)), u);
  }

  /** A reservation the server accepts is such a code: its holder is ready at once. */
  lemma ReservedIsReady(w: World, actions: seq<Action>, r: Reservation, v: Verification)
    requires Start(w) && Possible(w, actions) && Enabled(After(w, actions), ReserveCode(r))
    requires ReserveScript(After(w, actions).server, r).code == 1 && r.id == v.id && Matches(r, v)
    requires UnderLimit(After(w, actions).server, v.source)
    requires Resolution(After(w, actions).db, v.email, v.identityId, v.now).verdict.Eligible?
    requires v.session.id !in After(w, actions).clients && ValidSession(v.session) && Duration(v.session) == SESSION_MS
    ensures Possible(w, actions + [ReserveCode(r)]) && Ready(After(w, actions + [ReserveCode(r)]), v)
  {
    OneMoreAction(w, actions, ReserveCode(r), After(w, actions));
    RunsAreSafe(w, actions);
    FreshIsUnused(After(w, actions), r.id);
    ReadyAfter(After(w, actions), r, v);
  }

  lemma ReadyAfter(t: World, r: Reservation, v: Verification)
    requires ReserveScript(t.server, r).code == 1 && r.id == v.id && Matches(r, v) && r.id !in t.server.codes
    requires UnderLimit(t.server, v.source) && Resolution(t.db, v.email, v.identityId, v.now).verdict.Eligible?
    requires v.session.id !in t.clients && ValidSession(v.session) && Duration(v.session) == SESSION_MS
    ensures Ready(Reserved(t, r), v)
  {
    StoredFresh(t.server, r);
    StillUnder(t.server, r, v.source);
  }

  lemma StillUnder(s: Server, r: Reservation, source: string)
    requires UnderLimit(s, source)
    ensures UnderLimit(ReserveScript(s, r).server, source)
  {
    var t := ReserveScript(s, r).server;
    ChecksUntouched(s, r, source);
    assert Members(Trimmed(t.rates, Checks(source), t.now), Checks(source)) == Members(Trimmed(s.rates, Checks(source), s.now), Checks(source));
  }

  lemma StoredFresh(s: Server, r: Reservation)
    requires ReserveScript(s, r).code == 1 && r.id !in s.codes
    ensures var t := ReserveScript(s, r).server;
            r.id in t.codes && t.codes[r.id] == Code(r.email, r.keyId, r.purpose, r.verifier, r.binding, 0, true, None, s.now + CODE)
  {
  }

  lemma TrimmedOther(rates: map<Rate, Sorted>, one: Rate, other: Rate, now: Millis)
    requires one != other
    ensures Members(Trimmed(rates, one, now), other) == Members(rates, other)
  {
  }

  lemma AddedOther(rates: map<Rate, Sorted>, one: Rate, other: Rate, now: Millis, mark: Mark)
    requires one != other
    ensures Members(Added(rates, one, now, mark), other) == Members(rates, other)
  {
  }

  /** A reservation charges its sends, not its checks. */
  lemma ChecksUntouched(s: Server, r: Reservation, source: string)
    ensures Members(ReserveScript(s, r).server.rates, Checks(source)) == Members(s.rates, Checks(source))
    ensures ReserveScript(s, r).server.now == s.now
  {
    var first := Trimmed(s.rates, SendTo(r.email), s.now);
    var both := Trimmed(first, SendFrom(r.source), s.now);
    var added := Added(both, SendTo(r.email), s.now, ById(r.id));
    TrimmedOther(s.rates, SendTo(r.email), Checks(source), s.now);
    TrimmedOther(first, SendFrom(r.source), Checks(source), s.now);
    AddedOther(both, SendTo(r.email), Checks(source), s.now, ById(r.id));
    AddedOther(added, SendFrom(r.source), Checks(source), s.now, ById(r.id));
    ReservedRates(s, r, both, Added(added, SendFrom(r.source), s.now, ById(r.id)));
  }

  lemma ReservedRates(s: Server, r: Reservation, trimmed: map<Rate, Sorted>, added: map<Rate, Sorted>)
    requires trimmed == Trimmed(Trimmed(s.rates, SendTo(r.email), s.now), SendFrom(r.source), s.now)
    requires added == Added(Added(trimmed, SendTo(r.email), s.now, ById(r.id)), SendFrom(r.source), s.now, ById(r.id))
    ensures ReserveScript(s, r).server.rates == trimmed || ReserveScript(s, r).server.rates == added
  {
  }

  /** So the misled retry is reached: from any such state, sign in undisturbed and wait more than five minutes. */
  lemma MisledRetryIsReached(w: World, actions: seq<Action>, v: Verification, later: Millis)
    requires Start(w) && Possible(w, actions) && Ready(After(w, actions), v)
    requires later > After(w, actions + SignIn(v)).server.now + CODE
    ensures var t := After(w, actions + SignIn(v) + [Pass(later)]);
            Possible(w, actions + SignIn(v) + [Pass(later)]) && HasWon(t, v.session.id)
            && t.clients[v.session.id].identity.Some? && RetryCode(t, t.clients[v.session.id]) == 0
  {
    UndisturbedSignIn(w, actions, v);
    var run := actions + SignIn(v);
    MarkedSince(w, run, v.session.id);
    LateRetryIsMisled(w, run, v.session.id, later);
    OneMoreAction(w, run, Pass(later), After(w, run));
  }
}

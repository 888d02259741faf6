/**
  Many clients, one server, one identity table: messages may be delivered late, twice or never, replies may be
  lost, clients may stop at any point, and keys expire. Each script, and the identity transaction, is one step.
  */
module RedisProtocol {
  import opened Wrappers
  import opened Otp
  import opened RedisServer
  import opened IdentityDb

  /** sessionAbsoluteTTL; every session record is made with this lifetime. */
  const SESSION_MS := 604_800_000
  const NANOS := 1_000_000

  datatype Phase =
    | Checking                      // verifyScript sent
    | Resolving                     // lease held
    | Rejecting                     // identity refused: rejectLeaseScript sent
    | Releasing                     // gave up: releaseLeaseScript sent
    | Completing                    // completeScript sent
    | Retrying                      // completeScript sent again
    | Over(result: Result)

  datatype Result = Won(identity: Identity) | Lost | Limited | Broken

  /** One call of Verify, and the identity the table gave it. */
  datatype Client = Client(attempt: Verification, phase: Phase, identity: Option<Identity>)

  datatype Request = AskLease(session: string) | AskReject(session: string) | AskRelease(session: string) | AskComplete(session: string)
  datatype Response = Response(request: Request, code: int)

  /** completeScript made a session: for which challenge, under which ID, for whom. */
  datatype Creation = Creation(challenge: string, session: string, identity: Identity)

  datatype World = World(
    server: Server,
    db: Db,
    clients: map<string, Client>,
    asked: set<Request>,
    responses: set<Response>,
    reserved: map<string, Reservation>,
    created: seq<Creation>)

  datatype Action =
    | Pass(now: Millis)
    | ReserveCode(reservation: Reservation)
    | Begin(attempt: Verification)
    | Deliver(request: Request)
    | Hear(response: Response)
    | GiveUp(session: string)       // a timeout or a lost connection
    | Ask(session: string, outcome: TxOutcome)
    | Disable(email: string, disabled: bool)
    | Invite(email: string)
    | InvalidateCode(id: string)
    | UseSession(proof: SessionProof)
    | Logout(proof: SessionProof)
    | LogoutAll(proof: SessionProof)
    | LogoutIdentity(identity: string)
    | OpenPage(record: PreAuthRecord)
    | ClosePage(page: PreAuthProof)

  /** What the client sees of the identity transaction; a failed one may have committed. */
  datatype TxOutcome = Replied | FailedBefore | FailedAfter

  predicate ValidSession(r: SessionRecord)
  {
    r.id != "" && r.createdAt != 0 && r.lastSeenAt == r.createdAt && r.expiresAt > r.createdAt
  }

  function Duration(r: SessionRecord): Millis
  {
    (r.expiresAt - r.createdAt) / NANOS
  }

  /** Fresh challenge IDs, fresh session IDs, time that does not go back, and answers that were really given. */
  predicate Enabled(w: World, a: Action)
  {
    match a
    case Pass(now) => now >= w.server.now
    case ReserveCode(r) => r.id !in w.reserved
    case Begin(v) => v.session.id !in w.clients && Duration(v.session) == SESSION_MS
    case Deliver(request) => request in w.asked
    case Hear(response) => response in w.responses
    case GiveUp(session) => session in w.clients
    case Ask(session, _) => session in w.clients && w.clients[session].phase == Resolving
    case _ => true
  }

  function Act(w: World, a: Action): World
  {
    match a
    case Pass(now) => w.(server := Tick(w.server, now))
    case ReserveCode(r) => Reserved(w, r)
    case Begin(v) =>
      w.(clients := w.clients[v.session.id := Client(v, Checking, None)], asked := w.asked + {AskLease(v.session.id)})
    case Deliver(request) => Delivered(w, request)
    case Hear(response) => Heard(w, response)
    case GiveUp(session) => GivenUp(w, session)
    case Ask(session, outcome) => Asked(w, session, outcome)
    case Disable(email, disabled) =>
      if email in w.db.identities then w.(db := w.db.(identities := w.db.identities[email := w.db.identities[email].(disabled := disabled)])) else w
    case Invite(email) =>
      if email in w.db.invitations then w else w.(db := w.db.(invitations := w.db.invitations[email := Option<Time>.None]))
    case _ => w.(server := Served(w.server, a))
  }

  /** Commands that concern the server alone. */
  function Served(s: Server, a: Action): Server
  {
    match a
    case InvalidateCode(id) => InvalidateScript(s, id).server
    case UseSession(p) => SessionScript(s, p).server
    case Logout(p) => RevokeScript(s, p).server
    case LogoutAll(p) => RevokeAllScript(s, p).server
    case LogoutIdentity(identity) => RevokeIdentityScript(s, identity).server
    case OpenPage(r) => CreatePageScript(s, r).server
    case ClosePage(p) => ConsumePageScript(s, p).server
    case _ => s
  }

  function Reserved(w: World, r: Reservation): World
  {
    var reply := ReserveScript(w.server, r);
    w.(server := reply.server, reserved := if reply.code == 1 then w.reserved[r.id := r] else w.reserved)
  }

  /** The server runs the script of a request; the response joins those the client may hear. */
  function Delivered(w: World, request: Request): World
  {
    if request.session !in w.clients then w
    else
      var c := w.clients[request.session];
      match request
      case AskLease(_) => Answered(w, request, VerifyScript(w.server, c.attempt))
      case AskReject(_) => Answered(w, request, RejectScript(w.server, c.attempt.id, LeaseOf(c.attempt)))
      case AskRelease(_) => Answered(w, request, ReleaseScript(w.server, c.attempt.id, LeaseOf(c.attempt)))
      case AskComplete(_) => if c.identity.Some? then CompleteFor(w, c, c.identity.value) else w
  }

  function Answered(w: World, request: Request, reply: Reply): World
  {
    w.(server := reply.server, responses := w.responses + {Response(request, reply.code)})
  }

  /** Does the completion really make a session now? */
  predicate Creates(s: Server, v: Verification)
  {
    LeaseOf(v) !in s.markers && Holds(s, v.id, LeaseOf(v))
  }

  function CompleteFor(w: World, c: Client, identity: Identity): World
  {
    var v := c.attempt;
    var t := Answered(w, AskComplete(v.session.id), CompleteScript(w.server, v.id, LeaseOf(v), v.session, identity, Duration(v.session)));
    if Creates(w.server, v) then t.(created := w.created + [Creation(v.id, v.session.id, identity)]) else t
  }

  function Moved(w: World, session: string, phase: Phase): World
    requires session in w.clients
  {
    w.(clients := w.clients[session := w.clients[session].(phase := phase)])
  }

  function Sent(w: World, request: Request, phase: Phase): World
    requires request.session in w.clients
  {
    Moved(w, request.session, phase).(asked := w.asked + {request})
  }

  /** The client's own branches on a response it was waiting for. */
  function Heard(w: World, response: Response): World
  {
    var session := response.request.session;
    if session !in w.clients then w
    else
      var c := w.clients[session];
      match response.request
      case AskLease(_) =>
        if c.phase != Checking then w
        else if response.code == 1 then Moved(w, session, Resolving)
        else Moved(w, session, Over(if response.code == 2 then Limited else Lost))
      case AskReject(_) => if c.phase == Rejecting then Moved(w, session, Over(Lost)) else w
      case AskRelease(_) => if c.phase == Releasing then Moved(w, session, Over(Broken)) else w
      case AskComplete(_) =>
        if c.phase != Completing && c.phase != Retrying then w
        else Moved(w, session, Over(if response.code == 1 && c.identity.Some? then Won(c.identity.value) else Lost))
  }

  /** An error instead of a response: the first completion is tried again, everything else ends. */
  function GivenUp(w: World, session: string): World
  {
    if session !in w.clients then w
    else
      match w.clients[session].phase
      case Completing => Sent(w, AskComplete(session), Retrying)
      case Over(_) => w
      case _ => Moved(w, session, Over(Broken))
  }

  /** The identity transaction and what the client does next. */
  function Asked(w: World, session: string, outcome: TxOutcome): World
  {
    if session !in w.clients || w.clients[session].phase != Resolving then w
    else
      var v := w.clients[session].attempt;
      var resolved := Resolution(w.db, v.email, v.identityId, v.now);
      var t := if outcome == FailedBefore then w else w.(db := resolved.db);
      if outcome != Replied || resolved.verdict == Failed then Sent(t, AskRelease(session), Releasing)
      else if resolved.verdict == Rejected then Sent(t, AskReject(session), Rejecting)
      else if !ValidSession(v.session) then Sent(t, AskRelease(session), Releasing)
      else
        w.(db := resolved.db, asked := w.asked + {AskComplete(session)},
           clients := w.clients[session := Client(v, Completing, Some(resolved.verdict.identity))])
  }

  predicate Start(w: World)
  {
    && w.server == Server(w.server.now, map[], map[], map[], map[], map[], map[], map[])
    && Sound(w.db) && w.clients == map[] && w.asked == {} && w.responses == {} && w.reserved == map[] && w.created == []
  }

  function After(w: World, actions: seq<Action>): World
  {
    if actions == [] then w else Act(After(w, actions[..|actions| - 1]), actions[|actions| - 1])
  }

  predicate Possible(w: World, actions: seq<Action>)
  {
    actions == [] || (Possible(w, actions[..|actions| - 1]) && Enabled(After(w, actions[..|actions| - 1]), actions[|actions| - 1]))
  }

  // ------------------------------------------------------------ invariant

  /** The stored code is the reservation's, its attempts stay within five, and nobody has used it up. */
  predicate CodeSound(id: string, c: Code, reserved: map<string, Reservation>, created: seq<Creation>)
  {
    && id in reserved
    && c.email == reserved[id].email && c.keyId == reserved[id].keyId && c.purpose == reserved[id].purpose
    && c.verifier == reserved[id].verifier && c.binding == reserved[id].binding
    && c.attempts <= ATTEMPTS && (c.attempts == ATTEMPTS ==> !c.active)
    && Unused(id, created)
  }

  predicate Unused(id: string, created: seq<Creation>)
  {
    forall i :: 0 <= i < |created| ==> created[i].challenge != id
  }

  /** The client presented the reservation's own code. */
  predicate Proved(v: Verification, reserved: map<string, Reservation>)
  {
    v.id in reserved && Matches(reserved[v.id], v)
  }

  /** A held lease belongs to a client that proved the code. */
  predicate HeldByProver(id: string, c: Code, clients: map<string, Client>, reserved: map<string, Reservation>)
  {
    c.held.Some? ==>
      var lease := c.held.value.lease;
      lease.session in clients && clients[lease.session].attempt.id == id && LeaseOf(clients[lease.session].attempt) == lease
      && Proved(clients[lease.session].attempt, reserved)
  }

  predicate CodesSound(w: World)
  {
    && (forall id :: id in w.server.codes ==> CodeSound(id, w.server.codes[id], w.reserved, w.created))
    && (forall id :: id in w.server.codes ==> HeldByProver(id, w.server.codes[id], w.clients, w.reserved))
  }

  predicate Durable(d: Db, identity: Identity, email: string)
  {
    email in d.identities && d.identities[email].identity == identity && identity.email == email
  }

  /** A client past the check proved its code; one with an identity holds the durable one of its email. */
  predicate ClientSound(session: string, c: Client, w: World)
  {
    && c.attempt.session.id == session && Duration(c.attempt.session) == SESSION_MS
    && (c.phase == Resolving || c.phase == Rejecting || c.phase == Releasing || c.identity.Some? ==> Proved(c.attempt, w.reserved))
    && (c.phase == Completing || c.phase == Retrying || (c.phase.Over? && c.phase.result.Won?) ==> c.identity.Some?)
    && (c.identity.Some? ==> Durable(w.db, c.identity.value, c.attempt.email))
    && (c.phase.Over? && c.phase.result.Won? ==> c.identity == Some(c.phase.result.identity) && Made(w.created, session))
  }

  predicate Made(created: seq<Creation>, session: string)
  {
    exists i :: 0 <= i < |created| && created[i].session == session
  }

  /** A logged creation: the client proved the challenge's code, and the session is its durable identity's. */
  predicate CreationSound(made: Creation, w: World)
  {
    && made.session in w.clients
    && w.clients[made.session].attempt.id == made.challenge
    && Proved(w.clients[made.session].attempt, w.reserved)
    && w.clients[made.session].identity == Some(made.identity)
    && Durable(w.db, made.identity, w.reserved[made.challenge].email)
  }

  predicate CreationsSound(w: World)
  {
    && (forall i :: 0 <= i < |w.created| ==> CreationSound(w.created[i], w))
    && (forall i, j :: 0 <= i < j < |w.created| ==> w.created[i].challenge != w.created[j].challenge)
  }

  /** What a response of 1 means. */
  predicate ResponseSound(r: Response, w: World)
  {
    && r.request.session in w.clients
    && (r.code == 1 ==>
      && (r.request.AskLease? ==> Proved(w.clients[r.request.session].attempt, w.reserved))
      && (r.request.AskComplete? ==> Made(w.created, r.request.session)))
  }

  predicate MarkersSound(w: World)
  {
    forall lease :: lease in w.server.markers ==> Made(w.created, lease.session)
  }

  /** A stored session: who it belongs to, and that its identity's index names and outlives it. */
  predicate LoginSound(id: string, l: Login, w: World)
  {
    && id in w.clients && w.clients[id].identity == Some(l.identity) && Made(w.created, id)
    && l.until == l.expires <= w.server.now + SESSION_MS
    && l.identity.id in w.server.indexes
    && id in w.server.indexes[l.identity.id].members && l.until <= w.server.indexes[l.identity.id].until
  }

  /** Only sessions of an identity are in its index. */
  predicate IndexSound(identity: string, index: Index, w: World)
  {
    forall id :: id in index.members ==> id in w.clients && w.clients[id].identity.Some? && w.clients[id].identity.value.id == identity
  }

  predicate SessionsSound(w: World)
  {
    && (forall id :: id in w.server.logins ==> LoginSound(id, w.server.logins[id], w))
    && (forall identity :: identity in w.server.indexes ==> IndexSound(identity, w.server.indexes[identity], w))
  }

  predicate RequestsSound(w: World)
  {
    forall request :: request in w.asked ==> request.session in w.clients
  }

  /** What the server stores. */
  predicate ServerInv(w: World)
  {
    CodesSound(w) && MarkersSound(w) && SessionsSound(w)
  }

  /** What is true of clients, messages, the log and the table. */
  predicate PeopleInv(w: World)
  {
    && Sound(w.db)
    && RequestsSound(w)
    && (forall session :: session in w.clients ==> ClientSound(session, w.clients[session], w))
    && CreationsSound(w)
    && (forall r :: r in w.responses ==> ResponseSound(r, w))
  }

  predicate Inv(w: World)
  {
    ServerInv(w) && PeopleInv(w)
  }

  // -------------------------------------------------------------- growing

  predicate SameClient(c: Client, d: Client)
  {
    c.attempt == d.attempt && (c.identity.Some? ==> d.identity == c.identity)
  }

  predicate ClientsGrow(before: map<string, Client>, after: map<string, Client>)
  {
    forall session :: session in before ==> session in after && SameClient(before[session], after[session])
  }

  predicate ReservedGrow(before: map<string, Reservation>, after: map<string, Reservation>)
  {
    forall id :: id in before ==> id in after && before[id] == after[id]
  }

  predicate IdentitiesGrow(before: Db, after: Db)
  {
    forall email :: email in before.identities ==> email in after.identities && before.identities[email].identity == after.identities[email].identity
  }

  /** What no step takes back. */
  predicate Grows(w: World, t: World)
  {
    && ClientsGrow(w.clients, t.clients) && ReservedGrow(w.reserved, t.reserved)
    && IdentitiesGrow(w.db, t.db) && w.created <= t.created
  }

  lemma ClientGrows(session: string, c: Client, w: World, t: World)
    requires ClientSound(session, c, w) && Grows(w, t)
    ensures ClientSound(session, c, t)
  {
    if Made(w.created, session) {
      MadeGrows(w, t, session);
    }
  }

  lemma MadeGrows(w: World, t: World, session: string)
    requires Made(w.created, session) && w.created <= t.created
    ensures Made(t.created, session)
  {
    var i :| 0 <= i < |w.created| && w.created[i].session == session;
    assert t.created[i] == w.created[i];
  }

  lemma CreationGrows(made: Creation, w: World, t: World)
    requires CreationSound(made, w) && Grows(w, t)
    ensures CreationSound(made, t)
  {
  }

  lemma ResponseGrows(r: Response, w: World, t: World)
    requires ResponseSound(r, w) && Grows(w, t)
    ensures ResponseSound(r, t)
  {
    if r.code == 1 && r.request.AskComplete? {
      MadeGrows(w, t, r.request.session);
    }
  }

  lemma LoginGrows(id: string, l: Login, w: World, t: World)
    requires LoginSound(id, l, w) && Grows(w, t) && t.server.indexes == w.server.indexes && t.server.now >= w.server.now
    ensures LoginSound(id, l, t)
  {
    MadeGrows(w, t, id);
  }

  lemma IndexGrows(identity: string, index: Index, w: World, t: World)
    requires IndexSound(identity, index, w) && Grows(w, t)
    ensures IndexSound(identity, index, t)
  {
  }

  lemma MarkersGrow(w: World, t: World)
    requires MarkersSound(w) && Grows(w, t) && (forall lease :: lease in t.server.markers ==> lease in w.server.markers)
    ensures MarkersSound(t)
  {
    forall lease | lease in t.server.markers ensures Made(t.created, lease.session) {
      MadeGrows(w, t, lease.session);
    }
  }

  lemma SessionsGrow(w: World, t: World)
    requires SessionsSound(w) && Grows(w, t) && t.server.indexes == w.server.indexes && t.server.logins == w.server.logins
    requires t.server.now == w.server.now
    ensures SessionsSound(t)
  {
    forall id | id in t.server.logins ensures LoginSound(id, t.server.logins[id], t) {
      LoginGrows(id, t.server.logins[id], w, t);
    }
    forall identity | identity in t.server.indexes ensures IndexSound(identity, t.server.indexes[identity], t) {
      IndexGrows(identity, t.server.indexes[identity], w, t);
    }
  }

  lemma CodesGrow(w: World, t: World)
    requires CodesSound(w) && Grows(w, t) && t.server.codes == w.server.codes && t.created == w.created
    ensures CodesSound(t)
  {
    forall id | id in t.server.codes ensures HeldByProver(id, t.server.codes[id], t.clients, t.reserved) {
      assert HeldByProver(id, w.server.codes[id], w.clients, w.reserved);
    }
    forall id | id in t.server.codes ensures CodeSound(id, t.server.codes[id], t.reserved, t.created) {
      assert CodeSound(id, w.server.codes[id], w.reserved, w.created);
    }
  }

  /** The same server among more people. */
  lemma ServerKept(w: World, t: World)
    requires ServerInv(w) && Grows(w, t) && t.server == w.server && t.created == w.created
    ensures ServerInv(t)
  {
    CodesGrow(w, t);
    MarkersGrow(w, t);
    SessionsGrow(w, t);
  }

  /** The same people before another server. */
  lemma PeopleKept(w: World, t: World)
    requires PeopleInv(w) && Grows(w, t) && t.clients == w.clients && t.asked == w.asked && t.created == w.created && Sound(t.db)
    requires forall r :: r in t.responses && r !in w.responses ==> ResponseSound(r, t)
    ensures PeopleInv(t)
  {
    forall session | session in t.clients ensures ClientSound(session, t.clients[session], t) {
      ClientGrows(session, t.clients[session], w, t);
    }
    forall i | 0 <= i < |t.created| ensures CreationSound(t.created[i], t) {
      CreationGrows(t.created[i], w, t);
    }
    forall r | r in t.responses ensures ResponseSound(r, t) {
      if r in w.responses {
        ResponseGrows(r, w, t);
      }
    }
  }
}

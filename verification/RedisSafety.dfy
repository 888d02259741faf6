/** Every step keeps the protocol's invariant; one winner per challenge, and logout-all is complete. */
module RedisSafety {
  import opened Wrappers
  import opened Otp
  import opened RedisServer
  import opened IdentityDb
  import opened RedisProtocol

  // --------------------------------------------------- changes to the server

  function With(w: World, s: Server): World
  {
    w.(server := s)
  }

  lemma RatesFree(w: World, rates: map<Rate, Sorted>)
    requires ServerInv(w)
    ensures ServerInv(With(w, w.server.(rates := rates)))
  {
    var t := With(w, w.server.(rates := rates));
    CodesGrow(w, t);
    MarkersGrow(w, t);
    SessionsGrow(w, t);
  }

  lemma PagesFree(w: World, rates: map<Rate, Sorted>, pages: map<string, PageHash>)
    requires ServerInv(w)
    ensures ServerInv(With(w, w.server.(rates := rates, pages := pages)))
  {
    var t := With(w, w.server.(rates := rates, pages := pages));
    CodesGrow(w, t);
    MarkersGrow(w, t);
    SessionsGrow(w, t);
  }

  /** One stored code changes, and stays a sound one. */
  lemma CodePut(w: World, id: string, c: Code, active: map<Holder, Pointer>)
    requires ServerInv(w) && CodeSound(id, c, w.reserved, w.created) && HeldByProver(id, c, w.clients, w.reserved)
    ensures ServerInv(With(w, w.server.(codes := w.server.codes[id := c], active := active)))
  {
    var t := With(w, w.server.(codes := w.server.codes[id := c], active := active));
    CodesPut(w.server.codes, id, c, w);
    MarkersGrow(w, t);
    SessionsGrow(w, t);
  }

  predicate AllSound(codes: map<string, Code>, w: World)
  {
    forall id :: id in codes ==> CodeSound(id, codes[id], w.reserved, w.created) && HeldByProver(id, codes[id], w.clients, w.reserved)
  }

  lemma CodesPut(codes: map<string, Code>, id: string, c: Code, w: World)
    requires CodeSound(id, c, w.reserved, w.created) && HeldByProver(id, c, w.clients, w.reserved)
    requires AllSound(codes, w)
    ensures AllSound(codes[id := c], w)
  {
  }

  lemma DisabledSound(w: World, id: string)
    requires ServerInv(w)
    ensures ServerInv(With(w, w.server.(codes := Disabled(w.server.codes, id))))
  {
    if id in w.server.codes {
      var c := w.server.codes[id];
      assert CodeSound(id, c, w.reserved, w.created) && HeldByProver(id, c, w.clients, w.reserved);
      CodePut(w, id, c.(active := false), w.server.active);
    }
  }

  lemma ReleaseSound(w: World, id: string, lease: Lease)
    requires ServerInv(w)
    ensures ServerInv(With(w, ReleaseScript(w.server, id, lease).server))
    ensures ServerInv(With(w, RejectScript(w.server, id, lease).server))
  {
    if id in w.server.codes {
      var c := w.server.codes[id];
      assert CodeSound(id, c, w.reserved, w.created);
      CodePut(w, id, c.(held := None), w.server.active);
      CodePut(w, id, c.(active := false, held := None), w.server.active);
    }
  }

  /** The lease goes only to a client that proves the reservation's code. */
  lemma CheckSound(w: World, v: Verification)
    requires ServerInv(w) && v.session.id in w.clients && w.clients[v.session.id].attempt == v
    ensures ServerInv(With(w, CheckCode(w.server, v).server))
    ensures CheckCode(w.server, v).code == 1 ==> Proved(v, w.reserved)
  {
    var s := w.server;
    if v.id in s.codes && s.codes[v.id].active && !LeaseRuns(s.codes[v.id], s.now) {
      var free := s.codes[v.id].(held := None);
      assert CodeSound(v.id, s.codes[v.id], w.reserved, w.created);
      if CodeMatches(free, v) {
        CodePut(w, v.id, free.(held := Some(Held(LeaseOf(v), s.now + LEASE))), s.active);
      } else {
        CodePut(w, v.id, free, s.active);
        MissSound(With(w, s.(codes := s.codes[v.id := free])), v, free);
      }
    }
  }

  lemma MissSound(w: World, v: Verification, c: Code)
    requires ServerInv(w) && CodeSound(v.id, c, w.reserved, w.created) && c.active && c.held.None?
    ensures ServerInv(With(w, CountMiss(w.server, v, c).server))
    ensures CountMiss(w.server, v, c).code != 1
  {
    var s := w.server;
    var trimmed := Trimmed(s.rates, Misses(c.email), s.now);
    RatesFree(w, trimmed);
    var t := With(w, s.(rates := trimmed));
    var added := Added(trimmed, Misses(c.email), s.now, ByLease(LeaseOf(v)));
    RatesFree(t, added);
    CodePut(With(w, s.(rates := added)), v.id, c.(attempts := c.attempts + 1, active := c.active && c.attempts + 1 < ATTEMPTS), s.active);
  }

  lemma VerifySound(w: World, v: Verification)
    requires ServerInv(w) && v.session.id in w.clients && w.clients[v.session.id].attempt == v
    ensures ServerInv(With(w, VerifyScript(w.server, v).server))
    ensures VerifyScript(w.server, v).code == 1 ==> Proved(v, w.reserved)
  {
    var s := w.server;
    var trimmed := Trimmed(s.rates, Checks(v.source), s.now);
    var added := Added(trimmed, Checks(v.source), s.now, ByLease(LeaseOf(v)));
    RatesFree(w, trimmed);
    RatesFree(With(w, s.(rates := trimmed)), added);
    CheckSound(With(w, s.(rates := added)), v);
  }

  /** A fresh reservation, already noted in the history, is stored; its predecessor is switched off. */
  lemma ReplacedSound(w: World, r: Reservation)
    requires ServerInv(w) && r.id in w.reserved && w.reserved[r.id] == r && r.id !in w.server.codes && Unused(r.id, w.created)
    ensures ServerInv(With(w, Replaced(w.server, r)))
  {
    var s, key := w.server, ActiveKey(r);
    if key in s.active {
      DisabledSound(w, s.active[key].id);
      StoredSound(With(w, s.(codes := Disabled(s.codes, s.active[key].id))), r);
    } else {
      StoredSound(w, r);
    }
  }

  /** A code for a fresh reservation, behind the pointer of its purpose and email. */
  lemma StoredSound(w: World, r: Reservation)
    requires ServerInv(w) && r.id in w.reserved && w.reserved[r.id] == r && Unused(r.id, w.created)
    ensures var s := w.server;
            ServerInv(With(w, s.(codes := s.codes[r.id := Code(r.email, r.keyId, r.purpose, r.verifier, r.binding, 0, true, None, s.now + CODE)],
                                 active := s.active[ActiveKey(r) := Pointer(r.id, s.now + CODE)])))
  {
    var s := w.server;
    CodePut(w, r.id, Code(r.email, r.keyId, r.purpose, r.verifier, r.binding, 0, true, None, s.now + CODE),
            s.active[ActiveKey(r) := Pointer(r.id, s.now + CODE)]);
  }

  lemma TickSound(w: World, now: Millis)
    requires ServerInv(w) && now >= w.server.now
    ensures ServerInv(With(w, Tick(w.server, now)))
  {
    var t := With(w, Tick(w.server, now));
    MarkersGrow(w, t);
    forall id | id in t.server.logins ensures LoginSound(id, t.server.logins[id], t) {
      assert LoginSound(id, w.server.logins[id], w);
    }
    forall identity | identity in t.server.indexes ensures IndexSound(identity, t.server.indexes[identity], t) {
      assert IndexSound(identity, w.server.indexes[identity], w);
    }
    TickCodes(w, now);
  }

  lemma TickCodes(w: World, now: Millis)
    requires CodesSound(w)
    ensures CodesSound(With(w, Tick(w.server, now)))
  {
    var t := With(w, Tick(w.server, now));
    forall id | id in t.server.codes ensures CodeSound(id, t.server.codes[id], t.reserved, t.created) && HeldByProver(id, t.server.codes[id], t.clients, t.reserved) {
      assert CodeSound(id, w.server.codes[id], w.reserved, w.created) && HeldByProver(id, w.server.codes[id], w.clients, w.reserved);
    }
  }

  // ------------------------------------------------------ session scripts

  lemma SessionsOnly(w: World, logins: map<string, Login>, indexes: map<string, Index>)
    requires ServerInv(w)
    requires forall id :: id in logins ==> LoginIndexed(id, logins[id], indexes) && LoginOwned(id, logins[id], w)
    requires forall identity :: identity in indexes ==> IndexSound(identity, indexes[identity], w)
    ensures ServerInv(With(w, w.server.(logins := logins, indexes := indexes)))
  {
    var t := With(w, w.server.(logins := logins, indexes := indexes));
    CodesGrow(w, t);
    MarkersGrow(w, t);
    forall id | id in logins ensures LoginSound(id, logins[id], t) {
      assert LoginIndexed(id, logins[id], indexes) && LoginOwned(id, logins[id], w);
    }
    forall identity | identity in indexes ensures IndexSound(identity, indexes[identity], t) {
      assert IndexSound(identity, indexes[identity], w);
    }
  }

  predicate LoginIndexed(id: string, l: Login, indexes: map<string, Index>)
  {
    l.identity.id in indexes && id in indexes[l.identity.id].members && l.until <= indexes[l.identity.id].until
  }

  predicate LoginOwned(id: string, l: Login, w: World)
  {
    id in w.clients && w.clients[id].identity == Some(l.identity) && Made(w.created, id) && l.until == l.expires <= w.server.now + SESSION_MS
  }

  lemma Parts(w: World)
    requires ServerInv(w)
    ensures forall id :: id in w.server.logins ==> LoginIndexed(id, w.server.logins[id], w.server.indexes) && LoginOwned(id, w.server.logins[id], w)
    ensures forall identity :: identity in w.server.indexes ==> IndexSound(identity, w.server.indexes[identity], w)
  {
    forall id | id in w.server.logins ensures LoginIndexed(id, w.server.logins[id], w.server.indexes) && LoginOwned(id, w.server.logins[id], w) {
      assert LoginSound(id, w.server.logins[id], w);
    }
  }

  lemma SessionScriptSound(w: World, p: SessionProof)
    requires ServerInv(w)
    ensures ServerInv(With(w, SessionScript(w.server, p).server))
  {
    var s := w.server;
    Parts(w);
    SessionsOnly(w, s.logins - {p.id}, s.indexes);
    if p.id in s.logins {
      var l := s.logins[p.id];
      assert LoginIndexed(p.id, l, s.indexes) && LoginOwned(p.id, l, w);
      SessionsOnly(w, s.logins[p.id := l.(lastSeen := s.now, until := l.expires)], s.indexes);
    }
  }

  /** Two sessions never share an index entry: removing one's ID leaves the others listed. */
  lemma RevokeSound(w: World, p: SessionProof)
    requires ServerInv(w)
    ensures ServerInv(With(w, RevokeScript(w.server, p).server))
  {
    var s := w.server;
    Parts(w);
    if Presented(s, p) {
      var identity := s.logins[p.id].identity.id;
      var indexes := Unlisted(s.indexes, identity, p.id);
      UnlistedKeeps(s.indexes, identity, p.id, w);
      forall id | id in s.logins - {p.id} ensures LoginIndexed(id, s.logins[id], indexes) {
        assert LoginIndexed(id, s.logins[id], s.indexes);
      }
      SessionsOnly(w, s.logins - {p.id}, indexes);
    }
  }

  lemma UnlistedKeeps(indexes: map<string, Index>, identity: string, session: string, w: World)
    requires forall i :: i in indexes ==> IndexSound(i, indexes[i], w)
    ensures forall i :: i in Unlisted(indexes, identity, session) ==> IndexSound(i, Unlisted(indexes, identity, session)[i], w)
    ensures forall i, id :: i in indexes && id in indexes[i].members && id != session ==>
              i in Unlisted(indexes, identity, session) && id in Unlisted(indexes, identity, session)[i].members
              && Unlisted(indexes, identity, session)[i].until == indexes[i].until
  {
    forall i, id | i in indexes && id in indexes[i].members && id != session
      ensures i in Unlisted(indexes, identity, session) && id in Unlisted(indexes, identity, session)[i].members {
      assert i == identity ==> id in Listed(indexes, identity) - {session};
    }
  }

  /** What is left after a purge: exactly the sessions of other identities. */
  lemma PurgedExactly(w: World, identity: string)
    requires ServerInv(w)
    ensures var t := Purged(w.server, identity);
            forall id :: id in t.logins <==> id in w.server.logins && w.server.logins[id].identity.id != identity
    ensures forall id :: id in Purged(w.server, identity).logins ==> Purged(w.server, identity).logins[id] == w.server.logins[id]
    ensures identity !in Purged(w.server, identity).indexes
  {
    var s := w.server;
    Parts(w);
    forall id | id in s.logins ensures id in Listed(s.indexes, identity) <==> s.logins[id].identity.id == identity {
      assert LoginIndexed(id, s.logins[id], s.indexes) && LoginOwned(id, s.logins[id], w);
    }
  }

  lemma PurgedSound(w: World, identity: string)
    requires ServerInv(w)
    ensures ServerInv(With(w, Purged(w.server, identity)))
  {
    var s := w.server;
    Parts(w);
    PurgedExactly(w, identity);
    forall id | id in Purged(s, identity).logins ensures LoginIndexed(id, s.logins[id], s.indexes - {identity}) {
      assert LoginIndexed(id, s.logins[id], s.indexes);
    }
    SessionsOnly(w, Purged(s, identity).logins, s.indexes - {identity});
  }

  lemma RevokeAllSound(w: World, p: SessionProof)
    requires ServerInv(w)
    ensures ServerInv(With(w, RevokeAllScript(w.server, p).server))
  {
    var s := w.server;
    Parts(w);
    SessionsOnly(w, s.logins - {p.id}, s.indexes);
    if Presented(s, p) {
      PurgedSound(w, s.logins[p.id].identity.id);
    }
  }

  // ------------------------------------------------------------ completion

  /** The log and the clients while one session is made: the people's side. */
  lemma LoggedSound(w: World, v: Verification, identity: Identity)
    requires Inv(w) && v.session.id in w.clients && w.clients[v.session.id].attempt == v && w.clients[v.session.id].identity == Some(identity)
    requires Holds(w.server, v.id, LeaseOf(v))
    ensures PeopleInv(w.(created := w.created + [Creation(v.id, v.session.id, identity)]))
  {
    var made := Creation(v.id, v.session.id, identity);
    var t := w.(created := w.created + [made]);
    assert ClientSound(v.session.id, w.clients[v.session.id], w);
    assert CodeSound(v.id, w.server.codes[v.id], w.reserved, w.created);
    forall session | session in t.clients ensures ClientSound(session, t.clients[session], t) {
      ClientGrows(session, t.clients[session], w, t);
    }
    forall i | 0 <= i < |t.created| ensures CreationSound(t.created[i], t) {
      if i < |w.created| {
        CreationGrows(w.created[i], w, t);
      }
    }
    forall r | r in t.responses ensures ResponseSound(r, t) {
      ResponseGrows(r, w, t);
    }
  }

  /** Without the consumed code, the longer log changes nothing for the codes that are left. */
  lemma ConsumedSound(w: World, v: Verification, made: Creation)
    requires CodesSound(w) && made.challenge == v.id
    ensures CodesSound(With(w, w.server.(codes := w.server.codes - {v.id})).(created := w.created + [made]))
  {
    var t := With(w, w.server.(codes := w.server.codes - {v.id})).(created := w.created + [made]);
    forall id | id in t.server.codes ensures CodeSound(id, t.server.codes[id], t.reserved, t.created) && HeldByProver(id, t.server.codes[id], t.clients, t.reserved) {
      assert CodeSound(id, w.server.codes[id], w.reserved, w.created) && HeldByProver(id, w.server.codes[id], w.clients, w.reserved);
    }
  }

  /** The new session is listed, and the refreshed index outlives every session of the identity. */
  lemma ListedSound(w: World, v: Verification, identity: Identity)
    requires ServerInv(w) && v.session.id in w.clients && w.clients[v.session.id].identity == Some(identity) && Made(w.created, v.session.id)
    requires Duration(v.session) == SESSION_MS
    ensures var s := Completed(w.server, v.id, LeaseOf(v), v.session, identity, Duration(v.session));
            ServerInv(With(w, w.server.(logins := s.logins, indexes := s.indexes)))
  {
    var s := Completed(w.server, v.id, LeaseOf(v), v.session, identity, Duration(v.session));
    Parts(w);
    forall id | id in s.logins ensures LoginIndexed(id, s.logins[id], s.indexes) && LoginOwned(id, s.logins[id], w) {
      if id != v.session.id {
        assert LoginIndexed(id, w.server.logins[id], w.server.indexes) && LoginOwned(id, w.server.logins[id], w);
      }
    }
    ListedIndex(w, v.session.id, identity, s.indexes[identity.id].until);
    SessionsOnly(w, s.logins, s.indexes);
  }

  lemma ListedIndex(w: World, session: string, identity: Identity, until: Millis)
    requires session in w.clients && w.clients[session].identity == Some(identity)
    requires forall i :: i in w.server.indexes ==> IndexSound(i, w.server.indexes[i], w)
    ensures var indexes := w.server.indexes[identity.id := Index(Listed(w.server.indexes, identity.id) + {session}, until)];
            forall i :: i in indexes ==> IndexSound(i, indexes[i], w)
  {
    assert IndexSound(identity.id, Index(Listed(w.server.indexes, identity.id) + {session}, until), w);
  }

  lemma CreatedSound(w: World, v: Verification, identity: Identity)
    requires ServerInv(w) && v.session.id in w.clients && w.clients[v.session.id].identity == Some(identity)
    requires Duration(v.session) == SESSION_MS
    ensures ServerInv(With(w, Completed(w.server, v.id, LeaseOf(v), v.session, identity, Duration(v.session)))
                        .(created := w.created + [Creation(v.id, v.session.id, identity)]))
  {
    var t := With(w, w.server.(codes := w.server.codes - {v.id})).(created := w.created + [Creation(v.id, v.session.id, identity)]);
    TakenSound(w, v, identity);
    SessionSound(t, v, identity);
    CompletedParts(w.server, v, identity);
  }

  /** The four keys the completion writes. */
  lemma CompletedParts(s: Server, v: Verification, identity: Identity)
    ensures var t := s.(codes := s.codes - {v.id});
            var u := Completed(t, v.id, LeaseOf(v), v.session, identity, Duration(v.session));
            Completed(s, v.id, LeaseOf(v), v.session, identity, Duration(v.session))
            == t.(markers := u.markers, logins := u.logins, indexes := u.indexes)
  {
  }

  /** The marker, the session and its index entry, after the code is gone. */
  lemma SessionSound(t: World, v: Verification, identity: Identity)
    requires ServerInv(t) && v.session.id in t.clients && t.clients[v.session.id].identity == Some(identity) && Made(t.created, v.session.id)
    requires Duration(v.session) == SESSION_MS
    ensures var s := Completed(t.server, v.id, LeaseOf(v), v.session, identity, Duration(v.session));
            ServerInv(With(t, t.server.(markers := s.markers, logins := s.logins, indexes := s.indexes)))
  {
    MarkerSound(t, LeaseOf(v), t.server.now + CODE);
    ListedSound(With(t, t.server.(markers := t.server.markers[LeaseOf(v) := t.server.now + CODE])), v, identity);
  }

  lemma TakenSound(w: World, v: Verification, identity: Identity)
    requires ServerInv(w)
    ensures var t := With(w, w.server.(codes := w.server.codes - {v.id})).(created := w.created + [Creation(v.id, v.session.id, identity)]);
            ServerInv(t) && Made(t.created, v.session.id)
  {
    var made := Creation(v.id, v.session.id, identity);
    var t := With(w, w.server.(codes := w.server.codes - {v.id})).(created := w.created + [made]);
    assert t.created[|w.created|] == made;
    ConsumedSound(w, v, made);
    MarkersGrow(w, t);
    SessionsGrow(w, t);
  }

  lemma MarkerSound(w: World, lease: Lease, until: Millis)
    requires ServerInv(w) && Made(w.created, lease.session)
    ensures ServerInv(With(w, w.server.(markers := w.server.markers[lease := until])))
  {
    var t := With(w, w.server.(markers := w.server.markers[lease := until]));
    CodesGrow(w, t);
    SessionsGrow(w, t);
  }

  /** A response joins the others. */
  lemma AnsweredSound(w: World, t: World, request: Request, code: int)
    requires Inv(w) && t == w.(server := t.server, responses := w.responses + {Response(request, code)})
    requires ServerInv(With(w, t.server)) && ResponseSound(Response(request, code), w)
    ensures Inv(t)
  {
    ServerKept(With(w, t.server), t);
    assert ResponseSound(Response(request, code), t);
    PeopleKept(w, t);
  }

  lemma CompleteSound(w: World, c: Client, identity: Identity)
    requires Inv(w) && c.attempt.session.id in w.clients && w.clients[c.attempt.session.id] == c && c.identity == Some(identity)
    ensures Inv(CompleteFor(w, c, identity))
  {
    var v := c.attempt;
    var reply := CompleteScript(w.server, v.id, LeaseOf(v), v.session, identity, Duration(v.session));
    var request := AskComplete(v.session.id);
    if Creates(w.server, v) {
      var u := w.(created := w.created + [Creation(v.id, v.session.id, identity)]);
      assert u.created[|w.created|].session == v.session.id;
      LoggedSound(w, v, identity);
      assert ClientSound(v.session.id, c, w);
      CreatedSound(w, v, identity);
      var t := CompleteFor(w, c, identity);
      var mid := With(u, reply.server);
      assert ServerInv(mid);
      PeopleKept(u, mid);
      ServerKept(mid, t);
      PeopleKept(mid, t);
    } else {
      AnsweredSound(w, Answered(w, request, reply), request, reply.code);
    }
  }

  lemma DeliveredSound(w: World, request: Request)
    requires Inv(w)
    ensures Inv(Delivered(w, request))
  {
    if request.session in w.clients {
      var c := w.clients[request.session];
      var v := c.attempt;
      assert ClientSound(request.session, c, w);
      match request
      case AskLease(_) =>
        VerifySound(w, v);
        AnsweredSound(w, Delivered(w, request), request, VerifyScript(w.server, v).code);
      case AskReject(_) =>
        ReleaseSound(w, v.id, LeaseOf(v));
        AnsweredSound(w, Delivered(w, request), request, RejectScript(w.server, v.id, LeaseOf(v)).code);
      case AskRelease(_) =>
        ReleaseSound(w, v.id, LeaseOf(v));
        AnsweredSound(w, Delivered(w, request), request, ReleaseScript(w.server, v.id, LeaseOf(v)).code);
      case AskComplete(_) =>
        if c.identity.Some? {
          CompleteSound(w, c, c.identity.value);
        }
    }
  }

  // --------------------------------------------------------------- clients

  /** One client takes a step of its own. */
  lemma ClientMoved(w: World, t: World, session: string, c: Client)
    requires Inv(w) && t == w.(clients := w.clients[session := c], asked := t.asked)
    requires forall request :: request in t.asked && request !in w.asked ==> request.session == session
    requires session in w.clients ==> SameClient(w.clients[session], c)
    requires ClientSound(session, c, w)
    ensures Inv(t)
  {
    ServerKept(w, t);
    ClientGrows(session, c, w, t);
    forall other | other in t.clients ensures ClientSound(other, t.clients[other], t) {
      if other != session {
        ClientGrows(other, w.clients[other], w, t);
      }
    }
    forall i | 0 <= i < |t.created| ensures CreationSound(t.created[i], t) {
      CreationGrows(t.created[i], w, t);
    }
    forall r | r in t.responses ensures ResponseSound(r, t) {
      ResponseGrows(r, w, t);
    }
  }

  lemma HeardSound(w: World, response: Response)
    requires Inv(w) && response in w.responses
    ensures Inv(Heard(w, response))
  {
    var session := response.request.session;
    var t := Heard(w, response);
    assert ResponseSound(response, w) && ClientSound(session, w.clients[session], w);
    if t != w {
      ClientMoved(w, t, session, t.clients[session]);
    }
  }

  lemma GivenUpSound(w: World, session: string)
    requires Inv(w)
    ensures Inv(GivenUp(w, session))
  {
    var t := GivenUp(w, session);
    if session in w.clients && t != w {
      assert ClientSound(session, w.clients[session], w);
      ClientMoved(w, t, session, t.clients[session]);
    }
  }

  /** A larger identity table. */
  lemma DbSound(w: World, db: Db)
    requires Inv(w) && Sound(db) && IdentitiesGrow(w.db, db)
    ensures Inv(w.(db := db))
  {
    ServerKept(w, w.(db := db));
    PeopleKept(w, w.(db := db));
  }

  lemma AskedSound(w: World, session: string, outcome: TxOutcome)
    requires Inv(w)
    ensures Inv(Asked(w, session, outcome))
  {
    if session in w.clients && w.clients[session].phase == Resolving {
      var v := w.clients[session].attempt;
      var db := Resolution(w.db, v.email, v.identityId, v.now).db;
      ResolutionKeeps(w.db, v.email, v.identityId, v.now);
      DbSound(w, db);
      var u, t := if outcome == FailedBefore then w else w.(db := db), Asked(w, session, outcome);
      AskedClient(w, session, outcome);
      ClientMoved(u, t, session, t.clients[session]);
    }
  }

  /** Only the table and the asking client change, and the client stays sound. */
  lemma AskedClient(w: World, session: string, outcome: TxOutcome)
    requires PeopleInv(w) && session in w.clients && w.clients[session].phase == Resolving
    ensures var v, t := w.clients[session].attempt, Asked(w, session, outcome);
            var u := if outcome == FailedBefore then w else w.(db := Resolution(w.db, v.email, v.identityId, v.now).db);
            session in t.clients && t == u.(clients := w.clients[session := t.clients[session]], asked := t.asked)
            && (forall request :: request in t.asked && request !in w.asked ==> request.session == session)
            && SameClient(w.clients[session], t.clients[session]) && ClientSound(session, t.clients[session], u)
  {
    var c := w.clients[session];
    var v := c.attempt;
    ResolutionKeeps(w.db, v.email, v.identityId, v.now);
    var u := w.(db := Resolution(w.db, v.email, v.identityId, v.now).db);
    assert ClientSound(session, c, w);
    ClientGrows(session, c, w, u);
    AskedEnds(w, session, outcome);
    if Asked(w, session, outcome).clients[session].phase == Completing {
      ResolvedIsDurable(w.db, v.email, v.identityId, v.now);
    }
  }

  /** The client's next phase: giving up, rejected, or completing for the identity it got. */
  lemma AskedEnds(w: World, session: string, outcome: TxOutcome)
    requires session in w.clients && w.clients[session].phase == Resolving
    ensures var c, t := w.clients[session], Asked(w, session, outcome);
            var resolved := Resolution(w.db, c.attempt.email, c.attempt.identityId, c.attempt.now);
            var u := if outcome == FailedBefore then w else w.(db := resolved.db);
            || t == u.(clients := w.clients[session := c.(phase := Releasing)], asked := w.asked + {AskRelease(session)})
            || t == u.(clients := w.clients[session := c.(phase := Rejecting)], asked := w.asked + {AskReject(session)})
            || (outcome != FailedBefore && resolved.verdict.Eligible?
                && t == u.(clients := w.clients[session := Client(c.attempt, Completing, Some(resolved.verdict.identity))], asked := w.asked + {AskComplete(session)}))
  {
  }

  lemma ResolvedIsDurable(d: Db, email: string, proposed: string, now: Time)
    requires Sound(d)
    ensures var r := Resolution(d, email, proposed, now); r.verdict.Eligible? ==> Durable(r.db, r.verdict.identity, email)
  {
  }

  lemma BegunSound(w: World, v: Verification)
    requires Inv(w) && Enabled(w, Begin(v))
    ensures Inv(Act(w, Begin(v)))
  {
    ClientMoved(w, Act(w, Begin(v)), v.session.id, Client(v, Checking, None));
  }

  lemma ReservedSound(w: World, r: Reservation)
    requires Inv(w) && r.id !in w.reserved
    ensures Inv(Reserved(w, r))
  {
    var s := w.server;
    var trimmed := Trimmed(Trimmed(s.rates, SendTo(r.email), s.now), SendFrom(r.source), s.now);
    RatesFree(w, trimmed);
    if ReserveScript(s, r).code == 1 {
      AcceptedSound(w, r, trimmed);
    } else {
      PeopleKept(w, With(w, s.(rates := trimmed)));
    }
  }

  lemma AcceptedSound(w: World, r: Reservation, trimmed: map<Rate, Sorted>)
    requires Inv(w) && r.id !in w.reserved && ReserveScript(w.server, r).code == 1
    requires trimmed == Trimmed(Trimmed(w.server.rates, SendTo(r.email), w.server.now), SendFrom(r.source), w.server.now)
    ensures Inv(Reserved(w, r))
  {
    var s := w.server;
    var added := Added(Added(trimmed, SendTo(r.email), s.now, ById(r.id)), SendFrom(r.source), s.now, ById(r.id));
    FreshIsUnused(w, r.id);
    PlacedSound(w, r, added);
    AcceptedIs(w, r, added);
    PeopleKept(w, Reserved(w, r));
  }

  lemma AcceptedIs(w: World, r: Reservation, added: map<Rate, Sorted>)
    requires ReserveScript(w.server, r).code == 1
    requires added == Added(Added(Trimmed(Trimmed(w.server.rates, SendTo(r.email), w.server.now), SendFrom(r.source), w.server.now),
                                  SendTo(r.email), w.server.now, ById(r.id)), SendFrom(r.source), w.server.now, ById(r.id))
    ensures Reserved(w, r) == w.(server := Replaced(w.server.(rates := added), r), reserved := w.reserved[r.id := r])
  {
  }

  lemma PlacedSound(w: World, r: Reservation, added: map<Rate, Sorted>)
    requires ServerInv(w) && r.id !in w.reserved && r.id !in w.server.codes && Unused(r.id, w.created)
    ensures ServerInv(w.(server := Replaced(w.server.(rates := added), r), reserved := w.reserved[r.id := r]))
  {
    var u := With(w, w.server.(rates := added));
    RatesFree(w, added);
    var t := u.(reserved := w.reserved[r.id := r]);
    ServerKept(u, t);
    ReplacedSound(t, r);
  }

  lemma FreshIsUnused(w: World, id: string)
    requires Inv(w) && id !in w.reserved
    ensures Unused(id, w.created) && id !in w.server.codes
  {
    forall i | 0 <= i < |w.created| ensures w.created[i].challenge != id {
      assert CreationSound(w.created[i], w);
    }
    assert id in w.server.codes ==> CodeSound(id, w.server.codes[id], w.reserved, w.created);
  }

  lemma ServerOnly(w: World, s: Server)
    requires Inv(w) && ServerInv(With(w, s))
    ensures Inv(With(w, s))
  {
    PeopleKept(w, With(w, s));
  }

  lemma ServedSound(w: World, a: Action)
    requires ServerInv(w)
    ensures ServerInv(With(w, Served(w.server, a)))
  {
    match a
    case InvalidateCode(id) => DisabledSound(w, id);
    case UseSession(p) => SessionScriptSound(w, p);
    case Logout(p) => RevokeSound(w, p);
    case LogoutAll(p) => RevokeAllSound(w, p);
    case LogoutIdentity(identity) => PurgedSound(w, identity);
    case OpenPage(r) => PagesSound(w, CreatePageScript(w.server, r).server);
    case ClosePage(p) => PagesSound(w, ConsumePageScript(w.server, p).server);
    case _ =>
  }

  lemma PagesSound(w: World, s: Server)
    requires ServerInv(w) && s == w.server.(rates := s.rates, pages := s.pages)
    ensures ServerInv(With(w, s))
  {
    PagesFree(w, s.rates, s.pages);
  }

  lemma DisabledTable(w: World, email: string, disabled: bool)
    requires Inv(w)
    ensures Inv(Act(w, Disable(email, disabled)))
  {
    DbSound(w, Act(w, Disable(email, disabled)).db);
  }

  lemma InvitedTable(w: World, email: string)
    requires Inv(w)
    ensures Inv(Act(w, Invite(email)))
  {
    DbSound(w, Act(w, Invite(email)).db);
  }

  lemma ActKeeps(w: World, a: Action)
    requires Inv(w) && Enabled(w, a)
    ensures Inv(Act(w, a))
  {
    match a
    case Pass(now) => TickSound(w, now); ServerOnly(w, Tick(w.server, now));
    case ReserveCode(r) => ReservedSound(w, r);
    case Begin(v) => BegunSound(w, v);
    case Deliver(request) => DeliveredSound(w, request);
    case Hear(response) => HeardSound(w, response);
    case GiveUp(session) => GivenUpSound(w, session);
    case Ask(session, outcome) => AskedSound(w, session, outcome);
    case Disable(email, disabled) => DisabledTable(w, email, disabled);
    case Invite(email) => InvitedTable(w, email);
    case _ => ServedSound(w, a); ServerOnly(w, Served(w.server, a));
  }

  lemma {:induction false} RunsAreSafe(w: World, actions: seq<Action>)
    requires Start(w) && Possible(w, actions)
    ensures Inv(After(w, actions))
  {
    if actions != [] {
      RunsAreSafe(w, actions[..|actions| - 1]);
      ActKeeps(After(w, actions[..|actions| - 1]), actions[|actions| - 1]);
    }
  }

  // ---------------------------------------------------------- what follows

  /** The sessions the log shows for one challenge. */
  function SessionsMade(created: seq<Creation>, challenge: string): nat
  {
    if created == [] then 0
    else SessionsMade(created[..|created| - 1], challenge) + if created[|created| - 1].challenge == challenge then 1 else 0
  }

  lemma {:induction false} AtMostOne(created: seq<Creation>, challenge: string)
    requires forall i, j :: 0 <= i < j < |created| ==> created[i].challenge != created[j].challenge
    ensures SessionsMade(created, challenge) <= 1
    ensures SessionsMade(created, challenge) == 1 ==> !Unused(challenge, created)
  {
    if created != [] {
      var front := created[..|created| - 1];
      AtMostOne(front, challenge);
      assert created[|created| - 1].challenge == challenge ==> Unused(challenge, front);
      if SessionsMade(front, challenge) == 1 {
        var i :| 0 <= i < |front| && front[i].challenge == challenge;
        assert created[i].challenge == challenge;
      }
    }
  }

  /** Over every interleaving, a reserved challenge makes at most one session, however often completion is retried. */
  lemma OneSessionPerChallenge(w: World, actions: seq<Action>, challenge: string)
    requires Start(w) && Possible(w, actions)
    ensures SessionsMade(After(w, actions).created, challenge) <= 1
  {
    RunsAreSafe(w, actions);
    AtMostOne(After(w, actions).created, challenge);
  }

  predicate HasWon(w: World, session: string)
  {
    session in w.clients && w.clients[session].phase.Over? && w.clients[session].phase.result.Won?
  }

  /** Two calls that both return an identity verified different challenges. */
  lemma OneWinner(w: World, actions: seq<Action>, one: string, other: string)
    requires Start(w) && Possible(w, actions)
    requires HasWon(After(w, actions), one) && HasWon(After(w, actions), other)
    requires After(w, actions).clients[one].attempt.id == After(w, actions).clients[other].attempt.id
    ensures one == other
  {
    RunsAreSafe(w, actions);
    WinnersAreOne(After(w, actions), one, other);
  }

  lemma WinnersAreOne(t: World, one: string, other: string)
    requires PeopleInv(t) && HasWon(t, one) && HasWon(t, other) && t.clients[one].attempt.id == t.clients[other].attempt.id
    ensures one == other
  {
    WinnerMade(t, one);
    WinnerMade(t, other);
    MadeOnce(t.created, Creation(t.clients[one].attempt.id, one, t.clients[one].phase.result.identity),
             Creation(t.clients[other].attempt.id, other, t.clients[other].phase.result.identity));
  }

  lemma MadeOnce(created: seq<Creation>, a: Creation, b: Creation)
    requires forall i, j :: 0 <= i < j < |created| ==> created[i].challenge != created[j].challenge
    requires a in created && b in created && a.challenge == b.challenge
    ensures a == b
  {
    var i :| 0 <= i < |created| && created[i] == a;
    var j :| 0 <= j < |created| && created[j] == b;
    assert i == j;
  }

  /** Every session ever made: a client that presented the reservation's own code, for the durable identity of its email. */
  lemma SessionsAreEarned(w: World, actions: seq<Action>, i: nat)
    requires Start(w) && Possible(w, actions) && i < |After(w, actions).created|
    ensures var t, made := After(w, actions), After(w, actions).created[i];
            made.challenge in t.reserved && made.session in t.clients
            && t.clients[made.session].attempt.id == made.challenge && Matches(t.reserved[made.challenge], t.clients[made.session].attempt)
            && Durable(t.db, made.identity, t.reserved[made.challenge].email)
  {
    RunsAreSafe(w, actions);
    assert CreationSound(After(w, actions).created[i], After(w, actions));
  }

  /** What is stored now is one of those, under its durable identity. */
  lemma StoredSessionsAreEarned(w: World, actions: seq<Action>, id: string)
    requires Start(w) && Possible(w, actions) && id in After(w, actions).server.logins
    ensures var t := After(w, actions);
            exists i :: 0 <= i < |t.created| && t.created[i].session == id && t.created[i].identity == t.server.logins[id].identity
  {
    var t := After(w, actions);
    RunsAreSafe(w, actions);
    assert LoginSound(id, t.server.logins[id], t);
    var i :| 0 <= i < |t.created| && t.created[i].session == id;
    assert CreationSound(t.created[i], t);
  }

  /** An identity returned by Verify comes with a session of that identity, made from that challenge. */
  lemma WinningIsTrue(w: World, actions: seq<Action>, session: string)
    requires Start(w) && Possible(w, actions) && HasWon(After(w, actions), session)
    ensures var c := After(w, actions).clients[session];
            Creation(c.attempt.id, session, c.phase.result.identity) in After(w, actions).created
  {
    RunsAreSafe(w, actions);
    WinnerMade(After(w, actions), session);
  }

  lemma WinnerMade(t: World, session: string)
    requires PeopleInv(t) && HasWon(t, session)
    ensures Creation(t.clients[session].attempt.id, session, t.clients[session].phase.result.identity) in t.created
  {
    assert ClientSound(session, t.clients[session], t);
    var i :| 0 <= i < |t.created| && t.created[i].session == session;
    assert CreationSound(t.created[i], t);
    assert t.created[i] == Creation(t.clients[session].attempt.id, session, t.clients[session].phase.result.identity);
  }

  /** Once a session is made, running its completion again changes nothing on the server. */
  lemma RetryMakesNoSecond(w: World, actions: seq<Action>, session: string)
    requires Start(w) && Possible(w, actions) && Enabled(After(w, actions), Deliver(AskComplete(session)))
    requires Made(After(w, actions).created, session)
    ensures var t := After(w, actions);
            Act(t, Deliver(AskComplete(session))).created == t.created
            && Act(t, Deliver(AskComplete(session))).server == t.server
  {
    var t := After(w, actions);
    RunsAreSafe(w, actions);
    var i :| 0 <= i < |t.created| && t.created[i].session == session;
    assert CreationSound(t.created[i], t) && ClientSound(session, t.clients[session], t);
    var v := t.clients[session].attempt;
    assert v.id in t.server.codes ==> CodeSound(v.id, t.server.codes[v.id], t.reserved, t.created);
  }

  /** And it tells the client of its success exactly while the marker stands. */
  lemma RetryToldExactly(w: World, actions: seq<Action>, session: string)
    requires Start(w) && Possible(w, actions) && Enabled(After(w, actions), Deliver(AskComplete(session)))
    requires Made(After(w, actions).created, session)
    ensures var t := After(w, actions);
            session in t.clients && t.clients[session].identity.Some?
            && (CompleteScript(t.server, t.clients[session].attempt.id, LeaseOf(t.clients[session].attempt), t.clients[session].attempt.session,
                               t.clients[session].identity.value, SESSION_MS).code == 1
                <==> LeaseOf(t.clients[session].attempt) in t.server.markers)
  {
    var t := After(w, actions);
    RunsAreSafe(w, actions);
    var i :| 0 <= i < |t.created| && t.created[i].session == session;
    assert CreationSound(t.created[i], t);
    var v := t.clients[session].attempt;
    assert v.id in t.server.codes ==> CodeSound(v.id, t.server.codes[v.id], t.reserved, t.created);
  }

  /**
    A successful logout-all leaves no session of the identity, the presented one included though no
    command names it, and every other identity's sessions as they were.
    */
  lemma LogoutAllIsComplete(w: World, actions: seq<Action>, p: SessionProof)
    requires Start(w) && Possible(w, actions) && RevokeAllScript(After(w, actions).server, p).code == 1
    ensures LoggedOut(After(w, actions).server, Act(After(w, actions), LogoutAll(p)).server, p)
  {
    RunsAreSafe(w, actions);
    LogoutAct(After(w, actions), p);
  }

  /** The presented session's identity has no session left, and all other sessions are as they were. */
  ghost predicate LoggedOut(s: Server, t: Server, p: SessionProof)
  {
    && p.id in s.logins && p.id !in t.logins
    && (forall id :: id in t.logins <==> id in s.logins && s.logins[id].identity.id != s.logins[p.id].identity.id)
    && (forall id :: id in t.logins ==> t.logins[id] == s.logins[id])
  }

  lemma LogoutAct(t: World, p: SessionProof)
    requires ServerInv(t) && RevokeAllScript(t.server, p).code == 1
    ensures LoggedOut(t.server, Act(t, LogoutAll(p)).server, p)
  {
    AllGone(t, p);
  }

  lemma AllGone(w: World, p: SessionProof)
    requires ServerInv(w) && RevokeAllScript(w.server, p).code == 1
    ensures LoggedOut(w.server, RevokeAllScript(w.server, p).server, p)
  {
    PurgedExactly(w, w.server.logins[p.id].identity.id);
  }

  /** The same by identity, for an administrator. */
  lemma RevokeIdentityIsComplete(w: World, actions: seq<Action>, identity: string, id: string)
    requires Start(w) && Possible(w, actions)
    ensures var s, t := After(w, actions).server, Act(After(w, actions), LogoutIdentity(identity)).server;
            id in t.logins <==> id in s.logins && s.logins[id].identity.id != identity
  {
    RunsAreSafe(w, actions);
    PurgedExactly(After(w, actions), identity);
  }

  /** Five counted mismatches end a code: no lease is granted on it any more. */
  lemma GuessesAreBounded(w: World, actions: seq<Action>, v: Verification)
    requires Start(w) && Possible(w, actions) && v.id in After(w, actions).server.codes
    ensures After(w, actions).server.codes[v.id].attempts <= ATTEMPTS
    ensures After(w, actions).server.codes[v.id].attempts == ATTEMPTS ==> VerifyScript(After(w, actions).server, v).code != 1
  {
    RunsAreSafe(w, actions);
    assert CodeSound(v.id, After(w, actions).server.codes[v.id], After(w, actions).reserved, After(w, actions).created);
  }
}

/** The in-process store: maps updated in place, each method proved to take the step its specification gives. */
module MemoryStores {
  import opened Wrappers
  import opened Otp

  /** The budget values still inside the hour. */
  method RecentValues(values: seq<Time>, now: Time) returns (left: seq<Time>)
    ensures left == Recent(values, now)
  {
    var first := 0;
    while first < |values| && values[first] <= now - HOUR
      invariant first <= |values|
      invariant Recent(values, now) == Recent(values[first..], now)
    {
      first := first + 1;
    }
    return values[first..];
  }

  method PruneBudget(budget: Budgets, now: Time) returns (b: Budgets)
    ensures b == Pruned(budget, now)
  {
    b := budget;
    var keys := budget.Keys;
    while keys != {}
      invariant keys <= budget.Keys <= b.Keys + (budget.Keys - keys)
      invariant b.Keys <= budget.Keys
      invariant forall key :: key in keys ==> key in b && b[key] == budget[key]
      invariant forall key :: key in budget && key !in keys ==> Get(b, key) == Recent(budget[key], now)
      invariant forall key :: key in budget && key !in keys && key in b ==> b[key] != []
    {
      var key :| key in keys;
      var left := RecentValues(b[key], now);
      b := b[key := left];
      if |left| == 0 {
        b := b - {key};
      }
      keys := keys - {key};
    }
    assert forall key :: key in b <==> key in Pruned(budget, now);
  }

  /** Some pick a reclaim loop may make. */
  ghost function DeadChallenge(s: State, now: Time): (victim: Option<string>)
    ensures ChallengePick(s, now, victim)
  {
    if exists id :: id in s.challenges && ChallengeDead(s.challenges[id], now) then
      var id :| id in s.challenges && ChallengeDead(s.challenges[id], now);
      Some(id)
    else None
  }

  ghost function DeadSession(s: State, now: Time): (victim: Option<string>)
    ensures SessionPick(s, now, victim)
  {
    if exists id :: id in s.sessions && SessionDead(s.sessions[id], now) then
      var id :| id in s.sessions && SessionDead(s.sessions[id], now);
      Some(id)
    else None
  }

  ghost function DeadBrowserState(s: State, now: Time): (victim: Option<string>)
    ensures BrowserPick(s, now, victim)
  {
    if exists id :: id in s.browserStates && BrowserDead(s.browserStates[id], now) then
      var id :| id in s.browserStates && BrowserDead(s.browserStates[id], now);
      Some(id)
    else None
  }

  class MemoryStore {
    const capacity: nat
    var challenges: map<string, Challenge>
    var active: map<Holder, string>
    var identities: map<string, Identity>
    var sessions: map<string, Session>
    var browserStates: map<string, PreAuthRecord>
    var addressSends: Budgets
    var sourceSends: Budgets
    var bootstraps: Budgets
    var failures: Budgets
    var verifications: Budgets

    function Contents(): State
      reads this
    {
      State(capacity, challenges, active, identities, sessions, browserStates,
            Ledger(addressSends, sourceSends, bootstraps, failures, verifications))
    }

    ghost predicate Sound()
      reads this
    {
      Valid(Contents())
    }

    constructor (capacity: nat)
      requires capacity > 0
      ensures Contents() == Empty(capacity) && Sound()
    {
      this.capacity := capacity;
      challenges := map[];
      active := map[];
      identities := map[];
      sessions := map[];
      browserStates := map[];
      addressSends := map[];
      sourceSends := map[];
      bootstraps := map[];
      failures := map[];
      verifications := map[];
    }

    method Prune(now: Time)
      modifies this
      ensures Contents() == Otp.Prune(old(Contents()), now)
    {
      addressSends := PruneBudget(addressSends, now);
      sourceSends := PruneBudget(sourceSends, now);
      failures := PruneBudget(failures, now);
      verifications := PruneBudget(verifications, now);
      bootstraps := PruneBudget(bootstraps, now);
    }

    /** Deletes some dead challenge, with its index entry; the order of the search is the map's own. */
    method ReclaimChallenge(now: Time) returns (ok: bool, ghost victim: Option<string>)
      modifies this
      ensures ok == victim.Some? && ChallengePick(old(Contents()), now, victim)
      ensures Contents() == if ok then DropChallenge(old(Contents()), victim.value) else old(Contents())
    {
      var ids := challenges.Keys;
      while ids != {}
        invariant ids <= challenges.Keys && Contents() == old(Contents())
        invariant forall id :: id in challenges && id !in ids ==> !ChallengeDead(challenges[id], now)
      {
        var id :| id in ids;
        var stored := challenges[id];
        if !stored.active || now >= stored.reservation.expiresAt {
          challenges := challenges - {id};
          var key := ActiveKey(stored.reservation);
          if key in active && active[key] == id {
            active := active - {key};
          }
          return true, Some(id);
        }
        ids := ids - {id};
      }
      return false, None;
    }

    method ReclaimSession(now: Time) returns (ok: bool, ghost victim: Option<string>)
      modifies this
      ensures ok == victim.Some? && SessionPick(old(Contents()), now, victim)
      ensures Contents() == if ok then DropSession(old(Contents()), victim.value) else old(Contents())
    {
      var ids := sessions.Keys;
      while ids != {}
        invariant ids <= sessions.Keys && Contents() == old(Contents())
        invariant forall id :: id in sessions && id !in ids ==> !SessionDead(sessions[id], now)
      {
        var id :| id in ids;
        var session := sessions[id];
        if !session.active || now >= session.record.expiresAt || now >= session.record.lastSeenAt + IDLE {
          sessions := sessions - {id};
          return true, Some(id);
        }
        ids := ids - {id};
      }
      return false, None;
    }

    method ReclaimBrowserState(now: Time) returns (ok: bool, ghost victim: Option<string>)
      modifies this
      ensures ok == victim.Some? && BrowserPick(old(Contents()), now, victim)
      ensures Contents() == if ok then DropBrowserState(old(Contents()), victim.value) else old(Contents())
    {
      var ids := browserStates.Keys;
      while ids != {}
        invariant ids <= browserStates.Keys && Contents() == old(Contents())
        invariant forall id :: id in browserStates && id !in ids ==> !BrowserDead(browserStates[id], now)
      {
        var id :| id in ids;
        if now >= browserStates[id].expiresAt {
          browserStates := browserStates - {id};
          return true, Some(id);
        }
        ids := ids - {id};
      }
      return false, None;
    }

    method Reserve(r: Reservation) returns (answer: Answer, ghost victim: Option<string>)
      modifies this
      ensures Choice(old(Contents()), ReserveCall(r), victim)
      ensures Contents() == Otp.Reserve(old(Contents()), r, victim).state
      ensures answer == Otp.Reserve(old(Contents()), r, victim).answer
      ensures old(Sound()) && r.id != "" ==> Sound()
    {
      ghost var before := Contents();
      answer, victim := ReserveUnderLock(r);
      if Valid(before) && r.id != "" {
        ReserveValid(before, r, victim);
      }
    }

    method ReserveUnderLock(r: Reservation) returns (answer: Answer, ghost victim: Option<string>)
      modifies this
      ensures Choice(old(Contents()), ReserveCall(r), victim)
      ensures Contents() == Otp.Reserve(old(Contents()), r, victim).state
      ensures answer == Otp.Reserve(old(Contents()), r, victim).answer
    {
      ghost var before := Contents();
      victim := DeadChallenge(before, r.issuedAt);
      Prune(r.issuedAt);
      var address, source := Get(addressSends, r.email), Get(sourceSends, r.source);
      if |address| >= SENDS_PER_ADDRESS || |source| >= SENDS_PER_SOURCE || (|address| > 0 && r.issuedAt - address[|address| - 1] < MINUTE) {
        return RateLimited, victim;
      }
      if r.id in challenges {
        return Unavailable, victim;
      }
      if |challenges| >= capacity {
        var ok;
        ok, victim := ReclaimChallenge(r.issuedAt);
        if !ok {
          return Unavailable, victim;
        }
      }
      answer := Place(r);
    }

    /** Both send budgets are spent and the active challenge replaced together. */
    method Place(r: Reservation) returns (answer: Answer)
      modifies this
      ensures Contents() == Otp.Place(old(Contents()), r).state && answer == Otp.Place(old(Contents()), r).answer
    {
      if (r.email !in addressSends && |addressSends| >= capacity) || (r.source !in sourceSends && |sourceSends| >= capacity) {
        return Unavailable;
      }
      Open(r);
      return Done;
    }

    method Open(r: Reservation)
      modifies this
      ensures Contents() == Opened(old(Contents()), r)
    {
      addressSends := addressSends[r.email := Get(addressSends, r.email) + [r.issuedAt]];
      sourceSends := sourceSends[r.source := Get(sourceSends, r.source) + [r.issuedAt]];
      var key := ActiveKey(r);
      if key in active && active[key] != "" && active[key] in challenges {
        challenges := challenges[active[key] := challenges[active[key]].(active := false)];
      }
      challenges := challenges[r.id := Challenge(r, 0, true)];
      active := active[key := r.id];
    }

    method Verify(v: Verification) returns (answer: Answer, ghost victim: Option<string>)
      modifies this
      ensures Choice(old(Contents()), VerifyCall(v), victim)
      ensures Contents() == Otp.Verify(old(Contents()), v, victim).state
      ensures answer == Otp.Verify(old(Contents()), v, victim).answer
      ensures old(Sound()) ==> Sound()
    {
      ghost var before := Contents();
      answer, victim := VerifyUnderLock(v);
      if Valid(before) {
        VerifyValid(before, v, victim);
      }
    }

    method VerifyUnderLock(v: Verification) returns (answer: Answer, ghost victim: Option<string>)
      modifies this
      ensures Choice(old(Contents()), VerifyCall(v), victim)
      ensures Contents() == Otp.Verify(old(Contents()), v, victim).state
      ensures answer == Otp.Verify(old(Contents()), v, victim).answer
    {
      ghost var before := Contents();
      victim := DeadSession(before, v.now);
      Prune(v.now);
      answer, victim := Gate(v, victim);
    }

    method Gate(v: Verification, ghost pick: Option<string>) returns (answer: Answer, ghost victim: Option<string>)
      requires SessionPick(Contents(), v.now, pick)
      modifies this
      ensures SessionPick(old(Contents()), v.now, victim)
      ensures Contents() == Otp.Gate(old(Contents()), v, victim).state
      ensures answer == Otp.Gate(old(Contents()), v, victim).answer
    {
      victim := pick;
      if v.source !in verifications && |verifications| >= capacity {
        return RateLimited, victim;
      }
      var source := Get(verifications, v.source);
      if |source| >= VERIFICATIONS_PER_SOURCE {
        return RateLimited, victim;
      }
      verifications := verifications[v.source := source + [v.now]];
      answer, victim := Judge(v, victim);
    }

    method Judge(v: Verification, ghost pick: Option<string>) returns (answer: Answer, ghost victim: Option<string>)
      requires SessionPick(Contents(), v.now, pick)
      modifies this
      ensures SessionPick(old(Contents()), v.now, victim)
      ensures Contents() == Otp.Judge(old(Contents()), v, victim).state
      ensures answer == Otp.Judge(old(Contents()), v, victim).answer
    {
      victim := pick;
      if v.id !in challenges {
        return BadCode, victim;
      }
      var stored := challenges[v.id];
      if !stored.active || stored.attempts >= ATTEMPTS || v.now < stored.reservation.issuedAt || v.now >= stored.reservation.expiresAt {
        return BadCode, victim;
      }
      if Matches(stored.reservation, v) {
        answer, victim := Grant(v, stored, victim);
      } else {
        answer := Miss(v, stored);
      }
    }

    method Miss(v: Verification, stored: Challenge) returns (answer: Answer)
      modifies this
      ensures Contents() == Otp.Miss(old(Contents()), v, stored).state && answer == Otp.Miss(old(Contents()), v, stored).answer
    {
      var email := stored.reservation.email;
      if email !in failures && |failures| >= capacity {
        return RateLimited;
      }
      var missed := Get(failures, email);
      if |missed| >= FAILURES_PER_ADDRESS {
        return RateLimited;
      }
      failures := failures[email := missed + [v.now]];
      challenges := challenges[v.id := stored.(attempts := stored.attempts + 1)];
      return BadCode;
    }

    /** The end of Verify: room for the session, an identity if the email has none, and the challenge closed. */
    method Grant(v: Verification, stored: Challenge, ghost pick: Option<string>) returns (answer: Answer, ghost victim: Option<string>)
      requires SessionPick(Contents(), v.now, pick)
      modifies this
      ensures SessionPick(old(Contents()), v.now, victim)
      ensures Contents() == Otp.Grant(old(Contents()), v, stored, victim).state
      ensures answer == Otp.Grant(old(Contents()), v, stored, victim).answer
    {
      victim := pick;
      var session := v.session;
      if session.id == "" || session.createdAt != v.now || session.lastSeenAt != v.now || session.expiresAt <= v.now {
        return Unavailable, victim;
      }
      if session.id in sessions {
        return Unavailable, victim;
      }
      if |sessions| >= capacity {
        var ok;
        ok, victim := ReclaimSession(v.now);
        if !ok {
          return Unavailable, victim;
        }
      }
      answer := Admit(v, stored);
    }

    method Admit(v: Verification, stored: Challenge) returns (answer: Answer)
      modifies this
      ensures Contents() == Otp.Admit(old(Contents()), v, stored).state
      ensures answer == Otp.Admit(old(Contents()), v, stored).answer
    {
      var email := stored.reservation.email;
      var identity := if email in identities then identities[email] else Identity("", "", 0);
      if identity.id == "" {
        if |identities| >= capacity {
          return Unavailable;
        }
        identity := Identity(v.identityId, email, v.now);
        identities := identities[email := identity];
      }
      assert identities == old(identities)[email := identity];
      Seat(v, stored, identity);
      return Granted(identity);
    }

    /** The session is stored and the challenge used up. */
    method Seat(v: Verification, stored: Challenge, identity: Identity)
      modifies this
      ensures Contents() == old(Contents()).(sessions := old(sessions)[v.session.id := Session(v.session.(identityId := identity.id), identity, true)],
                                             challenges := old(challenges)[v.id := stored.(active := false)],
                                             active := old(active) - {ActiveKey(stored.reservation)})
    {
      sessions := sessions[v.session.id := Session(v.session.(identityId := identity.id), identity, true)];
      challenges := challenges[v.id := stored.(active := false)];
      active := active - {ActiveKey(stored.reservation)};
    }

    /** It cannot close a newer replacement: only the index entry that names this ID goes. */
    method Invalidate(id: string)
      modifies this
      ensures Contents() == Otp.Invalidate(old(Contents()), id).state
      ensures old(Sound()) ==> Sound()
    {
      ghost var before := Contents();
      if id !in challenges {
        return;
      }
      var stored := challenges[id];
      challenges := challenges[id := stored.(active := false)];
      var key := ActiveKey(stored.reservation);
      if key in active && active[key] == id {
        active := active - {key};
      }
      if Valid(before) {
        InvalidateValid(before, id);
      }
    }

    method AuthenticateSession(p: SessionProof) returns (answer: Answer)
      modifies this
      ensures Contents() == Authenticate(old(Contents()), p).state && answer == Authenticate(old(Contents()), p).answer
      ensures old(Sound()) ==> Sound()
    {
      ghost var before := Contents();
      if Valid(before) {
        AuthenticateValid(before, p);
      }
      if p.id !in sessions {
        return BadSession;
      }
      var session := sessions[p.id];
      if !Presents(session, p) || (p.csrf != 0 && session.record.csrf != p.csrf) {
        return BadSession;
      }
      sessions := sessions[p.id := session.(record := session.record.(lastSeenAt := p.now))];
      return Granted(session.identity);
    }

    method RevokeSession(p: SessionProof) returns (answer: Answer)
      modifies this
      ensures Contents() == Revoke(old(Contents()), p).state && answer == Revoke(old(Contents()), p).answer
      ensures old(Sound()) ==> Sound()
    {
      ghost var before := Contents();
      if Valid(before) {
        AuthenticateValid(before, p);
      }
      if p.id !in sessions || !sessions[p.id].active || sessions[p.id].record.digest != p.digest {
        return BadSession;
      }
      sessions := sessions[p.id := sessions[p.id].(active := false)];
      return Done;
    }

    /** The loop over all sessions; the presented one is among them. */
    method CloseIdentity(identity: string)
      modifies this
      ensures Contents() == old(Contents()).(sessions := WithoutIdentity(old(sessions), identity))
    {
      var ids := sessions.Keys;
      while ids != {}
        invariant ids <= old(sessions).Keys && sessions.Keys == old(sessions).Keys
        invariant forall id :: id in ids ==> sessions[id] == old(sessions)[id]
        invariant forall id :: id in sessions && id !in ids ==> sessions[id] == WithoutIdentity(old(sessions), identity)[id]
        invariant Contents() == old(Contents()).(sessions := sessions)
      {
        var id :| id in ids;
        if sessions[id].identity.id == identity {
          sessions := sessions[id := sessions[id].(active := false)];
        }
        ids := ids - {id};
      }
      assert sessions == WithoutIdentity(old(sessions), identity);
    }

    method RevokeAllSessions(p: SessionProof) returns (answer: Answer)
      modifies this
      ensures Contents() == RevokeAll(old(Contents()), p).state && answer == RevokeAll(old(Contents()), p).answer
      ensures old(Sound()) ==> Sound()
    {
      ghost var before := Contents();
      if Valid(before) {
        AuthenticateValid(before, p);
      }
      if p.id !in sessions || !Presents(sessions[p.id], p) {
        return BadSession;
      }
      CloseIdentity(sessions[p.id].identity.id);
      return Done;
    }

    method RevokeIdentitySessions(identity: string)
      modifies this
      ensures Contents() == RevokeIdentity(old(Contents()), identity).state
      ensures old(Sound()) ==> Sound()
    {
      ghost var before := Contents();
      if Valid(before) {
        RevokeIdentityValid(before, identity);
      }
      CloseIdentity(identity);
    }

    method CreatePreAuth(r: PreAuthRecord) returns (answer: Answer, ghost victim: Option<string>)
      modifies this
      ensures Choice(old(Contents()), CreatePreAuthCall(r), victim)
      ensures Contents() == Otp.CreatePreAuth(old(Contents()), r, victim).state
      ensures answer == Otp.CreatePreAuth(old(Contents()), r, victim).answer
      ensures old(Sound()) ==> Sound()
    {
      ghost var before := Contents();
      answer, victim := CreateUnderLock(r);
      if Valid(before) {
        PreAuthValid(before, r, victim);
      }
    }

    method CreateUnderLock(r: PreAuthRecord) returns (answer: Answer, ghost victim: Option<string>)
      modifies this
      ensures Choice(old(Contents()), CreatePreAuthCall(r), victim)
      ensures Contents() == Otp.CreatePreAuth(old(Contents()), r, victim).state
      ensures answer == Otp.CreatePreAuth(old(Contents()), r, victim).answer
    {
      ghost var before := Contents();
      victim := DeadBrowserState(before, r.issuedAt);
      if !WellFormed(r) {
        return Unavailable, victim;
      }
      Prune(r.issuedAt);
      var budget := Get(bootstraps, r.source);
      if |budget| >= BOOTSTRAPS_PER_SOURCE {
        return RateLimited, victim;
      }
      if r.source !in bootstraps && |bootstraps| >= capacity {
        return Unavailable, victim;
      }
      if r.id in browserStates {
        return Unavailable, victim;
      }
      if |browserStates| >= capacity {
        var ok;
        ok, victim := ReclaimBrowserState(r.issuedAt);
        if !ok {
          return Unavailable, victim;
        }
      }
      Enroll(r);
      return Done, victim;
    }

    method Enroll(r: PreAuthRecord)
      modifies this
      ensures Contents() == Enrolled(old(Contents()), r)
    {
      bootstraps := bootstraps[r.source := Get(bootstraps, r.source) + [r.issuedAt]];
      browserStates := browserStates[r.id := r];
    }

    method AuthenticatePreAuth(p: PreAuthProof) returns (answer: Answer)
      ensures answer == CheckPreAuth(Contents(), p)
    {
      if p.id !in browserStates || p.now < browserStates[p.id].issuedAt || p.now >= browserStates[p.id].expiresAt
         || browserStates[p.id].digest != p.digest || browserStates[p.id].csrf != p.csrf {
        return BadPreAuth;
      }
      return Done;
    }

    method ConsumePreAuth(p: PreAuthProof) returns (answer: Answer)
      modifies this
      ensures Contents() == Otp.ConsumePreAuth(old(Contents()), p).state && answer == Otp.ConsumePreAuth(old(Contents()), p).answer
      ensures old(Sound()) ==> Sound()
    {
      ghost var before := Contents();
      if Valid(before) {
        ConsumeValid(before, p);
      }
      answer := AuthenticatePreAuth(p);
      if answer == Done {
        browserStates := browserStates - {p.id};
      }
    }
  }
}

/** The data of email-code authentication, and what one store call does to it. */
module Otp {
  import opened Wrappers
  import opened Text

  const HOUR := 3_600_000_000_000
  const MINUTE := 60_000_000_000
  const IDLE := 24 * HOUR
  const PRE_AUTH := 10 * MINUTE

  const SENDS_PER_ADDRESS := 5
  const SENDS_PER_SOURCE := 20
  const ATTEMPTS := 5
  const FAILURES_PER_ADDRESS := 20
  const VERIFICATIONS_PER_SOURCE := 100
  const BOOTSTRAPS_PER_SOURCE := 20

  /** Nanoseconds since the zero time. */
  type Time = int
  /** A 32-byte digest; 0 is the all-zero one. */
  type Digest = nat

  datatype Purpose = Browser | Native
  datatype Reservation = Reservation(
    id: string, email: string, keyId: string, purpose: Purpose, verifier: Digest, binding: Digest,
    issuedAt: Time, expiresAt: Time, source: string)
  datatype SessionRecord = SessionRecord(
    id: string, identityId: string, digest: Digest, csrf: Digest, createdAt: Time, lastSeenAt: Time, expiresAt: Time)
  datatype Verification = Verification(
    id: string, email: string, keyId: string, purpose: Purpose, verifier: Digest, binding: Digest,
    now: Time, source: string, identityId: string, session: SessionRecord)
  datatype Identity = Identity(id: string, email: string, createdAt: Time)
  datatype SessionProof = SessionProof(id: string, digest: Digest, csrf: Digest, now: Time)
  datatype PreAuthRecord = PreAuthRecord(id: string, source: string, digest: Digest, csrf: Digest, issuedAt: Time, expiresAt: Time)
  datatype PreAuthProof = PreAuthProof(id: string, digest: Digest, csrf: Digest, now: Time)

  datatype Challenge = Challenge(reservation: Reservation, attempts: nat, active: bool)
  datatype Session = Session(record: SessionRecord, identity: Identity, active: bool)

  type Budgets = map<string, seq<Time>>

  /** The five rolling budgets. */
  datatype Ledger = Ledger(addressSends: Budgets, sourceSends: Budgets, bootstraps: Budgets, failures: Budgets, verifications: Budgets)

  datatype State = State(
    capacity: nat,
    challenges: map<string, Challenge>,
    active: map<Holder, string>,
    identities: map<string, Identity>,
    sessions: map<string, Session>,
    browserStates: map<string, PreAuthRecord>,
    budgets: Ledger)

  datatype Answer = Done | Granted(identity: Identity) | RateLimited | Unavailable | BadCode | BadSession | BadPreAuth

  /** What a call leaves behind. full: a capacity guard refused. charged: the source's verification budget was spent. */
  datatype Outcome = Outcome(state: State, answer: Answer, full: bool, charged: bool)

  function Plain(s: State, answer: Answer): Outcome
  {
    Outcome(s, answer, false, false)
  }

  function Refused(s: State, answer: Answer): Outcome
  {
    Outcome(s, answer, true, false)
  }

  function PurposeText(p: Purpose): string
  {
    match p case Browser => "browser" case Native => "native"
  }

  /** What the active index is keyed by. */
  datatype Holder = Holder(purpose: Purpose, email: string)

  /** The text the store uses as the key. */
  function KeyText(k: Holder): string
  {
    PurposeText(k.purpose) + "\0" + k.email
  }

  /** The text tells purpose and email apart, so the pair stands for it. */
  lemma KeyTextInjective(k: Holder, l: Holder)
    requires KeyText(k) == KeyText(l)
    ensures k == l
  {
    assert KeyText(k)[0] == PurposeText(k.purpose)[0] && KeyText(l)[0] == PurposeText(l.purpose)[0];
    assert KeyText(k)[|PurposeText(k.purpose)| + 1..] == k.email;
    assert KeyText(l)[|PurposeText(l.purpose)| + 1..] == l.email;
  }

  function ActiveKey(r: Reservation): Holder
  {
    Holder(r.purpose, r.email)
  }

  // ------------------------------------------------------------ pruning

  function Get(b: Budgets, key: string): seq<Time>
  {
    if key in b then b[key] else []
  }

  /** The values left after dropping the prefix that is an hour old. */
  function Recent(values: seq<Time>, now: Time): seq<Time>
  {
    if values != [] && values[0] <= now - HOUR then Recent(values[1..], now) else values
  }

  function Pruned(b: Budgets, now: Time): Budgets
  {
    map key | key in b && Recent(b[key], now) != [] :: Recent(b[key], now)
  }

  function PruneAll(l: Ledger, now: Time): Ledger
  {
    Ledger(Pruned(l.addressSends, now), Pruned(l.sourceSends, now), Pruned(l.bootstraps, now),
           Pruned(l.failures, now), Pruned(l.verifications, now))
  }

  function Prune(s: State, now: Time): State
  {
    s.(budgets := PruneAll(s.budgets, now))
  }

  function Spend(b: Budgets, key: string, now: Time): Budgets
  {
    b[key := Get(b, key) + [now]]
  }

  /** A new key would make the map too large. */
  predicate NoRoom(b: Budgets, key: string, capacity: nat)
  {
    key !in b && |b| >= capacity
  }

  // --------------------------------------------------------- reclaiming

  predicate ChallengeDead(c: Challenge, now: Time)
  {
    !c.active || now >= c.reservation.expiresAt
  }

  predicate SessionDead(c: Session, now: Time)
  {
    !c.active || now >= c.record.expiresAt || now >= c.record.lastSeenAt + IDLE
  }

  predicate BrowserDead(r: PreAuthRecord, now: Time)
  {
    now >= r.expiresAt
  }

  /** delete(s.active, key) when it points to id; a missing key reads as the empty ID. */
  function Unlinked(active: map<Holder, string>, key: Holder, id: string): map<Holder, string>
  {
    if key in active && active[key] == id then active - {key} else active
  }

  function DropChallenge(s: State, id: string): State
  {
    if id !in s.challenges then s
    else s.(challenges := s.challenges - {id}, active := Unlinked(s.active, ActiveKey(s.challenges[id].reservation), id))
  }

  /** What a reclaim loop may pick: any dead entry, and nothing only when all are alive. */
  predicate ChallengePick(s: State, now: Time, victim: Option<string>)
  {
    match victim
    case None => forall id :: id in s.challenges ==> !ChallengeDead(s.challenges[id], now)
    case Some(id) => id in s.challenges && ChallengeDead(s.challenges[id], now)
  }

  predicate SessionPick(s: State, now: Time, victim: Option<string>)
  {
    match victim
    case None => forall id :: id in s.sessions ==> !SessionDead(s.sessions[id], now)
    case Some(id) => id in s.sessions && SessionDead(s.sessions[id], now)
  }

  predicate BrowserPick(s: State, now: Time, victim: Option<string>)
  {
    match victim
    case None => forall id :: id in s.browserStates ==> !BrowserDead(s.browserStates[id], now)
    case Some(id) => id in s.browserStates && BrowserDead(s.browserStates[id], now)
  }

  // ------------------------------------------------------- reserve, verify

  predicate TooSoon(address: seq<Time>, now: Time)
  {
    |address| > 0 && now - address[|address| - 1] < MINUTE
  }

  function Reserve(s: State, r: Reservation, victim: Option<string>): Outcome
  {
    var p := Prune(s, r.issuedAt);
    var address, source := Get(p.budgets.addressSends, r.email), Get(p.budgets.sourceSends, r.source);
    if |address| >= SENDS_PER_ADDRESS || |source| >= SENDS_PER_SOURCE || TooSoon(address, r.issuedAt) then Plain(p, RateLimited)
    else if r.id in p.challenges then Plain(p, Unavailable)
    else if |p.challenges| >= p.capacity && victim.None? then Refused(p, Unavailable)
    else Place(if |p.challenges| >= p.capacity then DropChallenge(p, victim.value) else p, r)
  }

  function Place(s: State, r: Reservation): Outcome
  {
    if NoRoom(s.budgets.addressSends, r.email, s.capacity) || NoRoom(s.budgets.sourceSends, r.source, s.capacity) then Refused(s, Unavailable)
    else Plain(Opened(s, r), Done)
  }

  /** The challenge the active index names is closed; a dangling or empty entry names none. */
  function Closed(s: State, key: Holder): map<string, Challenge>
  {
    if key in s.active && s.active[key] != "" && s.active[key] in s.challenges
    then s.challenges[s.active[key] := s.challenges[s.active[key]].(active := false)]
    else s.challenges
  }

  function Opened(s: State, r: Reservation): State
  {
    s.(budgets := s.budgets.(addressSends := Spend(s.budgets.addressSends, r.email, r.issuedAt),
                             sourceSends := Spend(s.budgets.sourceSends, r.source, r.issuedAt)),
       challenges := Closed(s, ActiveKey(r))[r.id := Challenge(r, 0, true)],
       active := s.active[ActiveKey(r) := r.id])
  }

  function Verify(s: State, v: Verification, victim: Option<string>): Outcome
  {
    Gate(Prune(s, v.now), v, victim)
  }

  /** The source's budget is spent before anything is looked up. */
  function Gate(s: State, v: Verification, victim: Option<string>): Outcome
  {
    if NoRoom(s.budgets.verifications, v.source, s.capacity) then Refused(s, RateLimited)
    else if |Get(s.budgets.verifications, v.source)| >= VERIFICATIONS_PER_SOURCE then Plain(s, RateLimited)
    else Judge(Charged(s, v), v, victim).(charged := true)
  }

  function Charged(s: State, v: Verification): State
  {
    s.(budgets := s.budgets.(verifications := Spend(s.budgets.verifications, v.source, v.now)))
  }

  predicate Usable(c: Challenge, now: Time)
  {
    c.active && c.attempts < ATTEMPTS && c.reservation.issuedAt <= now < c.reservation.expiresAt
  }

  predicate Matches(r: Reservation, v: Verification)
  {
    r.email == v.email && r.purpose == v.purpose && r.keyId == v.keyId && r.verifier == v.verifier && r.binding == v.binding
  }

  function Judge(s: State, v: Verification, victim: Option<string>): Outcome
  {
    if v.id !in s.challenges || !Usable(s.challenges[v.id], v.now) then Plain(s, BadCode)
    else if Matches(s.challenges[v.id].reservation, v) then Grant(s, v, s.challenges[v.id], victim)
    else Miss(s, v, s.challenges[v.id])
  }

  function Miss(s: State, v: Verification, c: Challenge): Outcome
  {
    var email := c.reservation.email;
    if NoRoom(s.budgets.failures, email, s.capacity) then Refused(s, RateLimited)
    else if |Get(s.budgets.failures, email)| >= FAILURES_PER_ADDRESS then Plain(s, RateLimited)
    else Plain(s.(budgets := s.budgets.(failures := Spend(s.budgets.failures, email, v.now)), challenges := s.challenges[v.id := c.(attempts := c.attempts + 1)]), BadCode)
  }

  predicate GoodSession(r: SessionRecord, now: Time)
  {
    r.id != "" && r.createdAt == now && r.lastSeenAt == now && r.expiresAt > now
  }

  /** The identity a verified email resolves to; the empty ID stands for none. */
  function Resolve(identities: map<string, Identity>, email: string, proposed: string, now: Time): Identity
  {
    if email in identities && identities[email].id != "" then identities[email] else Identity(proposed, email, now)
  }

  predicate Known(identities: map<string, Identity>, email: string)
  {
    email in identities && identities[email].id != ""
  }

  function Grant(s: State, v: Verification, c: Challenge, victim: Option<string>): Outcome
  {
    if !GoodSession(v.session, v.now) || v.session.id in s.sessions then Plain(s, Unavailable)
    else if |s.sessions| >= s.capacity && victim.None? then Refused(s, Unavailable)
    else Admit(if |s.sessions| >= s.capacity then DropSession(s, victim.value) else s, v, c)
  }

  function DropSession(s: State, id: string): State
  {
    s.(sessions := s.sessions - {id})
  }

  function Admit(s: State, v: Verification, c: Challenge): Outcome
  {
    if !Known(s.identities, c.reservation.email) && |s.identities| >= s.capacity then Refused(s, Unavailable)
    else
      var identity := Resolve(s.identities, c.reservation.email, v.identityId, v.now);
      Plain(Admitted(s, v, c, identity), Granted(identity))
  }

  function Admitted(s: State, v: Verification, c: Challenge, identity: Identity): State
  {
    s.(identities := s.identities[c.reservation.email := identity],
       sessions := s.sessions[v.session.id := Session(v.session.(identityId := identity.id), identity, true)],
       challenges := s.challenges[v.id := c.(active := false)],
       active := s.active - {ActiveKey(c.reservation)})
  }

  function Invalidate(s: State, id: string): Outcome
  {
    if id !in s.challenges then Plain(s, Done)
    else Plain(s.(challenges := s.challenges[id := s.challenges[id].(active := false)],
                  active := Unlinked(s.active, ActiveKey(s.challenges[id].reservation), id)), Done)
  }

  // ------------------------------------------------------------- sessions

  predicate Presents(c: Session, p: SessionProof)
  {
    c.record.createdAt <= p.now && !SessionDead(c, p.now) && c.record.digest == p.digest
  }

  function Authenticate(s: State, p: SessionProof): Outcome
  {
    if p.id in s.sessions && Presents(s.sessions[p.id], p) && (p.csrf == 0 || s.sessions[p.id].record.csrf == p.csrf) then
      Plain(s.(sessions := s.sessions[p.id := Seen(s.sessions[p.id], p.now)]), Granted(s.sessions[p.id].identity))
    else Plain(s, BadSession)
  }

  function Seen(c: Session, now: Time): Session
  {
    c.(record := c.record.(lastSeenAt := now))
  }

  function Revoke(s: State, p: SessionProof): Outcome
  {
    if p.id in s.sessions && s.sessions[p.id].active && s.sessions[p.id].record.digest == p.digest then
      Plain(s.(sessions := s.sessions[p.id := s.sessions[p.id].(active := false)]), Done)
    else Plain(s, BadSession)
  }

  function WithoutIdentity(sessions: map<string, Session>, identity: string): map<string, Session>
  {
    map id | id in sessions :: if sessions[id].identity.id == identity then sessions[id].(active := false) else sessions[id]
  }

  function RevokeAll(s: State, p: SessionProof): Outcome
  {
    if p.id in s.sessions && Presents(s.sessions[p.id], p) then
      Plain(s.(sessions := WithoutIdentity(s.sessions, s.sessions[p.id].identity.id)), Done)
    else Plain(s, BadSession)
  }

  function RevokeIdentity(s: State, identity: string): Outcome
  {
    Plain(s.(sessions := WithoutIdentity(s.sessions, identity)), Done)
  }

  // --------------------------------------------------- pre-authentication

  predicate WellFormed(r: PreAuthRecord)
  {
    r.id != "" && r.source != "" && ByteLen(r.source) <= 256 && r.issuedAt != 0 && r.expiresAt - r.issuedAt == PRE_AUTH
  }

  function CreatePreAuth(s: State, r: PreAuthRecord, victim: Option<string>): Outcome
  {
    if !WellFormed(r) then Plain(s, Unavailable)
    else
      var p := Prune(s, r.issuedAt);
      if |Get(p.budgets.bootstraps, r.source)| >= BOOTSTRAPS_PER_SOURCE then Plain(p, RateLimited)
      else if NoRoom(p.budgets.bootstraps, r.source, p.capacity) then Refused(p, Unavailable)
      else if r.id in p.browserStates then Plain(p, Unavailable)
      else if |p.browserStates| >= p.capacity && victim.None? then Refused(p, Unavailable)
      else
        Plain(Enrolled(if |p.browserStates| >= p.capacity then DropBrowserState(p, victim.value) else p, r), Done)
  }

  function DropBrowserState(s: State, id: string): State
  {
    s.(browserStates := s.browserStates - {id})
  }

  function Enrolled(s: State, r: PreAuthRecord): State
  {
    s.(budgets := s.budgets.(bootstraps := Spend(s.budgets.bootstraps, r.source, r.issuedAt)), browserStates := s.browserStates[r.id := r])
  }

  predicate Shows(r: PreAuthRecord, p: PreAuthProof)
  {
    r.issuedAt <= p.now < r.expiresAt && r.digest == p.digest && r.csrf == p.csrf
  }

  function CheckPreAuth(s: State, p: PreAuthProof): Answer
  {
    if p.id in s.browserStates && Shows(s.browserStates[p.id], p) then Done else BadPreAuth
  }

  function ConsumePreAuth(s: State, p: PreAuthProof): Outcome
  {
    if CheckPreAuth(s, p) == Done then Plain(s.(browserStates := s.browserStates - {p.id}), Done) else Plain(s, BadPreAuth)
  }

  // ------------------------------------------------------------- one call

  datatype Event =
    | ReserveCall(reservation: Reservation)
    | VerifyCall(attempt: Verification)
    | InvalidateCall(id: string)
    | AuthenticateCall(proof: SessionProof)
    | RevokeCall(proof: SessionProof)
    | RevokeAllCall(proof: SessionProof)
    | RevokeIdentityCall(identity: string)
    | CreatePreAuthCall(record: PreAuthRecord)
    | CheckPreAuthCall(preAuth: PreAuthProof)
    | ConsumePreAuthCall(preAuth: PreAuthProof)

  function Step(s: State, e: Event, victim: Option<string>): Outcome
  {
    match e
    case ReserveCall(r) => Reserve(s, r, victim)
    case VerifyCall(v) => Verify(s, v, victim)
    case InvalidateCall(id) => Invalidate(s, id)
    case AuthenticateCall(p) => Authenticate(s, p)
    case RevokeCall(p) => Revoke(s, p)
    case RevokeAllCall(p) => RevokeAll(s, p)
    case RevokeIdentityCall(id) => RevokeIdentity(s, id)
    case CreatePreAuthCall(r) => CreatePreAuth(s, r, victim)
    case CheckPreAuthCall(p) => Plain(s, CheckPreAuth(s, p))
    case ConsumePreAuthCall(p) => ConsumePreAuth(s, p)
  }

  /** The reclaim loop runs only on a full map; then its pick is any dead entry, or none when there is none. */
  predicate Choice(s: State, e: Event, victim: Option<string>)
  {
    match e
    case ReserveCall(r) => |s.challenges| >= s.capacity ==> ChallengePick(s, r.issuedAt, victim)
    case VerifyCall(v) => |s.sessions| >= s.capacity ==> SessionPick(s, v.now, victim)
    case CreatePreAuthCall(r) => |s.browserStates| >= s.capacity ==> BrowserPick(s, r.issuedAt, victim)
    case _ => true
  }

  // ------------------------------------------------------------ invariant

  predicate PointsTo(active: map<Holder, string>, key: Holder, id: string)
  {
    key in active && active[key] == id
  }

  /** A challenge is active exactly when the index points to it, and the index never dangles. */
  predicate Indexed(challenges: map<string, Challenge>, active: map<Holder, string>)
  {
    && (forall id :: id in challenges ==> (challenges[id].active <==> PointsTo(active, ActiveKey(challenges[id].reservation), id)))
    && (forall key :: key in active ==> active[key] in challenges && ActiveKey(challenges[active[key]].reservation) == key)
  }

  predicate Counted(challenges: map<string, Challenge>)
  {
    forall id :: id in challenges ==> id != "" && challenges[id].reservation.id == id && challenges[id].attempts <= ATTEMPTS
  }

  predicate WithinCapacity(s: State)
  {
    && |s.challenges| <= s.capacity && |s.identities| <= s.capacity && |s.sessions| <= s.capacity
    && |s.browserStates| <= s.capacity && |s.budgets.addressSends| <= s.capacity && |s.budgets.sourceSends| <= s.capacity
    && |s.budgets.bootstraps| <= s.capacity && |s.budgets.failures| <= s.capacity && |s.budgets.verifications| <= s.capacity
  }

  predicate SessionFiled(c: Session, id: string)
  {
    id != "" && c.record.id == id && c.record.identityId == c.identity.id
  }

  predicate SessionsFiled(sessions: map<string, Session>)
  {
    forall id :: id in sessions ==> SessionFiled(sessions[id], id)
  }

  predicate IdentitiesFiled(identities: map<string, Identity>)
  {
    forall email :: email in identities ==> identities[email].email == email
  }

  predicate Filed(s: State)
  {
    IdentitiesFiled(s.identities) && SessionsFiled(s.sessions)
  }

  predicate Valid(s: State)
  {
    s.capacity > 0 && Indexed(s.challenges, s.active) && Counted(s.challenges) && WithinCapacity(s) && Filed(s)
  }

  function Empty(capacity: nat): State
  {
    State(capacity, map[], map[], map[], map[], map[], Ledger(map[], map[], map[], map[], map[]))
  }

  /** Challenge IDs are never empty: the empty string is how the index says "none". */
  predicate Named(e: Event)
  {
    e.ReserveCall? ==> e.reservation.id != ""
  }

  lemma PrunedSmaller(b: Budgets, now: Time)
    ensures |Pruned(b, now)| <= |b|
    ensures forall key :: key in Pruned(b, now) ==> key in b
  {
    Fewer(Pruned(b, now).Keys, b.Keys);
  }

  lemma {:induction false} Fewer<T>(a: set<T>, b: set<T>)
    requires a <= b
    ensures |a| <= |b|
  {
    if a != {} {
      var x :| x in a;
      Fewer(a - {x}, b - {x});
    }
  }

  lemma PrunedValid(s: State, now: Time)
    requires Valid(s)
    ensures Valid(Prune(s, now))
  {
    PrunedSmaller(s.budgets.addressSends, now);
    PrunedSmaller(s.budgets.sourceSends, now);
    PrunedSmaller(s.budgets.bootstraps, now);
    PrunedSmaller(s.budgets.failures, now);
    PrunedSmaller(s.budgets.verifications, now);
  }

  lemma PutSize<T>(m: map<string, T>, key: string, value: T, capacity: nat)
    requires |m| <= capacity && (key in m || |m| < capacity)
    ensures |m[key := value]| <= capacity
  {
    assert key in m ==> m[key := value].Keys == m.Keys;
    assert key !in m ==> m[key := value].Keys == m.Keys + {key};
  }

  lemma SpendFits(b: Budgets, key: string, now: Time, capacity: nat)
    requires |b| <= capacity && !NoRoom(b, key, capacity)
    ensures |Spend(b, key, now)| <= capacity
  {
    PutSize(b, key, Get(b, key) + [now], capacity);
  }

  lemma DropIndexed(s: State, id: string)
    requires Indexed(s.challenges, s.active)
    ensures Indexed(DropChallenge(s, id).challenges, DropChallenge(s, id).active)
  {
  }

  lemma DropValid(s: State, id: string)
    requires Valid(s)
    ensures Valid(DropChallenge(s, id))
    ensures id in s.challenges ==> |DropChallenge(s, id).challenges| == |s.challenges| - 1
  {
    DropIndexed(s, id);
    if id in s.challenges {
      assert DropChallenge(s, id).challenges.Keys == s.challenges.Keys - {id};
    }
  }

  lemma OpenedIndexed(s: State, r: Reservation)
    requires Indexed(s.challenges, s.active) && Counted(s.challenges)
    requires r.id != "" && r.id !in s.challenges
    ensures Indexed(Opened(s, r).challenges, Opened(s, r).active) && Counted(Opened(s, r).challenges)
  {
  }

  lemma ClosedSize(s: State, key: Holder)
    requires |s.challenges| < s.capacity
    ensures |Closed(s, key)| < s.capacity
  {
    assert Closed(s, key).Keys == s.challenges.Keys;
  }

  lemma OpenedValid(s: State, r: Reservation)
    requires Valid(s) && r.id != "" && r.id !in s.challenges && |s.challenges| < s.capacity
    requires !NoRoom(s.budgets.addressSends, r.email, s.capacity) && !NoRoom(s.budgets.sourceSends, r.source, s.capacity)
    ensures Valid(Opened(s, r))
  {
    OpenedIndexed(s, r);
    SpendFits(s.budgets.addressSends, r.email, r.issuedAt, s.capacity);
    SpendFits(s.budgets.sourceSends, r.source, r.issuedAt, s.capacity);
    ClosedSize(s, ActiveKey(r));
    PutSize(Closed(s, ActiveKey(r)), r.id, Challenge(r, 0, true), s.capacity);
    OpenedRest(s, r);
  }

  lemma OpenedRest(s: State, r: Reservation)
    requires Filed(s)
    ensures Filed(Opened(s, r))
  {
  }

  lemma PlaceValid(s: State, r: Reservation)
    requires Valid(s) && r.id != "" && r.id !in s.challenges && |s.challenges| < s.capacity
    ensures Valid(Place(s, r).state)
  {
    if !NoRoom(s.budgets.addressSends, r.email, s.capacity) && !NoRoom(s.budgets.sourceSends, r.source, s.capacity) {
      OpenedValid(s, r);
    }
  }

  /** Where a reservation ends: refused after pruning, or placed once there is room. */
  lemma ReserveEnds(s: State, r: Reservation, victim: Option<string>)
    ensures var p, t := Prune(s, r.issuedAt), Reserve(s, r, victim).state;
            t == p || (r.id !in p.challenges && (if |p.challenges| >= p.capacity
                                                 then victim.Some? && t == Place(DropChallenge(p, victim.value), r).state
                                                 else t == Place(p, r).state))
  {
  }

  lemma ReserveValid(s: State, r: Reservation, victim: Option<string>)
    requires Valid(s) && r.id != ""
    requires |s.challenges| >= s.capacity ==> ChallengePick(s, r.issuedAt, victim)
    ensures Valid(Reserve(s, r, victim).state)
  {
    var p, t := Prune(s, r.issuedAt), Reserve(s, r, victim).state;
    PrunedValid(s, r.issuedAt);
    ReserveEnds(s, r, victim);
    if t != p {
      if |p.challenges| >= p.capacity {
        DropValid(p, victim.value);
        PlaceValid(DropChallenge(p, victim.value), r);
      } else {
        PlaceValid(p, r);
      }
    }
  }

  lemma MissValid(s: State, v: Verification)
    requires Valid(s) && v.id in s.challenges && s.challenges[v.id].attempts < ATTEMPTS
    ensures Valid(Miss(s, v, s.challenges[v.id]).state)
  {
    var c := s.challenges[v.id];
    var failures := Spend(s.budgets.failures, c.reservation.email, v.now);
    MissEnds(s, v, c, failures);
    if Miss(s, v, c).state != s {
      MissedValid(s, v, c, failures);
    }
  }

  /** Where a mismatch ends: uncounted, or counted when the address's budget has room. */
  lemma MissEnds(s: State, v: Verification, c: Challenge, failures: Budgets)
    requires failures == Spend(s.budgets.failures, c.reservation.email, v.now)
    ensures var t := Miss(s, v, c).state;
            t == s || (!NoRoom(s.budgets.failures, c.reservation.email, s.capacity)
                       && t == s.(budgets := s.budgets.(failures := failures), challenges := s.challenges[v.id := c.(attempts := c.attempts + 1)]))
  {
  }

  lemma MissedValid(s: State, v: Verification, c: Challenge, failures: Budgets)
    requires Valid(s) && v.id in s.challenges && c == s.challenges[v.id] && c.attempts < ATTEMPTS
    requires !NoRoom(s.budgets.failures, c.reservation.email, s.capacity) && failures == Spend(s.budgets.failures, c.reservation.email, v.now)
    ensures Valid(s.(budgets := s.budgets.(failures := failures), challenges := s.challenges[v.id := c.(attempts := c.attempts + 1)]))
  {
    SpendFits(s.budgets.failures, c.reservation.email, v.now, s.capacity);
    PutSize(s.challenges, v.id, c.(attempts := c.attempts + 1), s.capacity);
    BumpIndexed(s.challenges, s.active, v.id);
  }

  lemma BumpIndexed(challenges: map<string, Challenge>, active: map<Holder, string>, id: string)
    requires Indexed(challenges, active) && Counted(challenges) && id in challenges && challenges[id].attempts < ATTEMPTS
    ensures Indexed(challenges[id := challenges[id].(attempts := challenges[id].attempts + 1)], active)
    ensures Counted(challenges[id := challenges[id].(attempts := challenges[id].attempts + 1)])
  {
  }

  lemma CloseIndexed(challenges: map<string, Challenge>, active: map<Holder, string>, id: string)
    requires Indexed(challenges, active) && Counted(challenges) && id in challenges
    ensures Indexed(challenges[id := challenges[id].(active := false)], Unlinked(active, ActiveKey(challenges[id].reservation), id))
    ensures Counted(challenges[id := challenges[id].(active := false)])
    ensures |challenges[id := challenges[id].(active := false)]| == |challenges|
  {
    ClosePoints(challenges, active, id);
    assert challenges[id := challenges[id].(active := false)].Keys == challenges.Keys;
  }

  lemma ClosePoints(challenges: map<string, Challenge>, active: map<Holder, string>, id: string)
    requires Indexed(challenges, active) && id in challenges
    ensures Indexed(challenges[id := challenges[id].(active := false)], Unlinked(active, ActiveKey(challenges[id].reservation), id))
  {
  }

  lemma GrantValid(s: State, v: Verification, victim: Option<string>)
    requires Valid(s) && v.id in s.challenges && s.challenges[v.id].active
    requires |s.sessions| >= s.capacity ==> SessionPick(s, v.now, victim)
    ensures Valid(Grant(s, v, s.challenges[v.id], victim).state)
  {
    var c := s.challenges[v.id];
    if GoodSession(v.session, v.now) && v.session.id !in s.sessions && !(|s.sessions| >= s.capacity && victim.None?) {
      if |s.sessions| >= s.capacity {
        DropSessionValid(s, victim.value);
        AdmitValid(DropSession(s, victim.value), v, c);
      } else {
        AdmitValid(s, v, c);
      }
    }
  }

  lemma DropSessionValid(s: State, id: string)
    requires Valid(s) && id in s.sessions
    ensures Valid(DropSession(s, id)) && |DropSession(s, id).sessions| < s.capacity
  {
    assert DropSession(s, id).sessions.Keys == s.sessions.Keys - {id};
  }

  lemma AdmitValid(t: State, v: Verification, c: Challenge)
    requires Valid(t) && v.id in t.challenges && c == t.challenges[v.id] && c.active
    requires GoodSession(v.session, v.now) && |t.sessions| < t.capacity
    ensures Valid(Admit(t, v, c).state)
  {
    var email := c.reservation.email;
    var identity := Resolve(t.identities, email, v.identityId, v.now);
    if Known(t.identities, email) || |t.identities| < t.capacity {
      var session := Session(v.session.(identityId := identity.id), identity, true);
      PutSize(t.identities, email, identity, t.capacity);
      IdentityPut(t.identities, email, identity);
      PutSize(t.sessions, v.session.id, session, t.capacity);
      SessionPut(t.sessions, v.session.id, session);
      CloseIndexed(t.challenges, t.active, v.id);
      assert Unlinked(t.active, ActiveKey(c.reservation), v.id) == t.active - {ActiveKey(c.reservation)};
    }
  }

  lemma IdentityPut(identities: map<string, Identity>, email: string, identity: Identity)
    requires IdentitiesFiled(identities) && identity.email == email
    ensures IdentitiesFiled(identities[email := identity])
  {
  }

  lemma SessionPut(sessions: map<string, Session>, id: string, session: Session)
    requires SessionsFiled(sessions) && SessionFiled(session, id)
    ensures SessionsFiled(sessions[id := session])
  {
  }

  lemma VerifyValid(s: State, v: Verification, victim: Option<string>)
    requires Valid(s)
    requires |s.sessions| >= s.capacity ==> SessionPick(s, v.now, victim)
    ensures Valid(Verify(s, v, victim).state)
  {
    var p := Prune(s, v.now);
    PrunedValid(s, v.now);
    if !NoRoom(p.budgets.verifications, v.source, p.capacity) {
      SpendFits(p.budgets.verifications, v.source, v.now, p.capacity);
      var q := Charged(p, v);
      assert Valid(q);
      if v.id in q.challenges && Usable(q.challenges[v.id], v.now) {
        if Matches(q.challenges[v.id].reservation, v) {
          GrantValid(q, v, victim);
        } else {
          MissValid(q, v);
        }
      }
    }
  }

  lemma InvalidateValid(s: State, id: string)
    requires Valid(s)
    ensures Valid(Invalidate(s, id).state)
  {
    if id in s.challenges {
      CloseIndexed(s.challenges, s.active, id);
    }
  }

  lemma Rewritten(sessions: map<string, Session>, id: string, session: Session, capacity: nat)
    requires SessionsFiled(sessions) && |sessions| <= capacity && id in sessions && SessionFiled(session, id)
    ensures SessionsFiled(sessions[id := session]) && |sessions[id := session]| <= capacity
  {
    PutSize(sessions, id, session, capacity);
    SessionPut(sessions, id, session);
  }

  lemma WithoutFiled(sessions: map<string, Session>, identity: string, capacity: nat)
    requires SessionsFiled(sessions) && |sessions| <= capacity
    ensures SessionsFiled(WithoutIdentity(sessions, identity)) && |WithoutIdentity(sessions, identity)| <= capacity
  {
    KeysSize(sessions, WithoutIdentity(sessions, identity));
  }

  lemma SessionsReplaced(s: State, sessions: map<string, Session>)
    requires Valid(s) && SessionsFiled(sessions) && |sessions| <= s.capacity
    ensures Valid(s.(sessions := sessions))
  {
  }

  lemma AuthenticateValid(s: State, p: SessionProof)
    requires Valid(s)
    ensures Valid(Authenticate(s, p).state) && Valid(Revoke(s, p).state) && Valid(RevokeAll(s, p).state)
  {
    if p.id in s.sessions {
      Rewritten(s.sessions, p.id, Seen(s.sessions[p.id], p.now), s.capacity);
      SessionsReplaced(s, s.sessions[p.id := Seen(s.sessions[p.id], p.now)]);
      Rewritten(s.sessions, p.id, s.sessions[p.id].(active := false), s.capacity);
      SessionsReplaced(s, s.sessions[p.id := s.sessions[p.id].(active := false)]);
      RevokeIdentityValid(s, s.sessions[p.id].identity.id);
    }
  }

  lemma RevokeIdentityValid(s: State, identity: string)
    requires Valid(s)
    ensures Valid(RevokeIdentity(s, identity).state)
  {
    WithoutFiled(s.sessions, identity, s.capacity);
    SessionsReplaced(s, WithoutIdentity(s.sessions, identity));
  }

  lemma KeysSize<T>(a: map<string, T>, b: map<string, T>)
    requires a.Keys == b.Keys
    ensures |a| == |b|
  {
    assert |a| == |a.Keys| && |b| == |b.Keys|;
  }

  lemma EnrolledValid(s: State, r: PreAuthRecord)
    requires Valid(s) && !NoRoom(s.budgets.bootstraps, r.source, s.capacity) && |s.browserStates| < s.capacity
    ensures Valid(Enrolled(s, r))
  {
    SpendFits(s.budgets.bootstraps, r.source, r.issuedAt, s.capacity);
    PutSize(s.browserStates, r.id, r, s.capacity);
  }

  lemma DropBrowserValid(s: State, id: string)
    requires Valid(s) && id in s.browserStates
    ensures Valid(DropBrowserState(s, id)) && |DropBrowserState(s, id).browserStates| < s.capacity
  {
    assert DropBrowserState(s, id).browserStates.Keys == s.browserStates.Keys - {id};
  }

  /** Where a bootstrap ends. */
  lemma CreateEnds(s: State, r: PreAuthRecord, victim: Option<string>)
    ensures var p, t := Prune(s, r.issuedAt), CreatePreAuth(s, r, victim).state;
            t == s || t == p || (!NoRoom(p.budgets.bootstraps, r.source, p.capacity)
                                 && (if |p.browserStates| >= p.capacity
                                     then victim.Some? && t == Enrolled(DropBrowserState(p, victim.value), r)
                                     else t == Enrolled(p, r)))
  {
  }

  lemma PreAuthValid(s: State, r: PreAuthRecord, victim: Option<string>)
    requires Valid(s)
    requires |s.browserStates| >= s.capacity ==> BrowserPick(s, r.issuedAt, victim)
    ensures Valid(CreatePreAuth(s, r, victim).state)
  {
    var p, t := Prune(s, r.issuedAt), CreatePreAuth(s, r, victim).state;
    PrunedValid(s, r.issuedAt);
    CreateEnds(s, r, victim);
    if t != s && t != p {
      if |p.browserStates| >= p.capacity {
        DropBrowserValid(p, victim.value);
        EnrolledValid(DropBrowserState(p, victim.value), r);
      } else {
        EnrolledValid(p, r);
      }
    }
  }

  lemma ConsumeValid(s: State, p: PreAuthProof)
    requires Valid(s)
    ensures Valid(ConsumePreAuth(s, p).state)
  {
    var states := s.browserStates - {p.id};
    Fewer(states.Keys, s.browserStates.Keys);
  }

  /** Every call keeps the invariant, whichever dead entry the reclaim loops pick. */
  lemma StepValid(s: State, e: Event, victim: Option<string>)
    requires Valid(s) && Named(e) && Choice(s, e, victim)
    ensures Valid(Step(s, e, victim).state)
  {
    match e
    case ReserveCall(r) => ReserveValid(s, r, victim);
    case VerifyCall(v) => VerifyValid(s, v, victim);
    case InvalidateCall(id) => InvalidateValid(s, id);
    case AuthenticateCall(p) => AuthenticateValid(s, p);
    case RevokeCall(p) => AuthenticateValid(s, p);
    case RevokeAllCall(p) => AuthenticateValid(s, p);
    case RevokeIdentityCall(id) => RevokeIdentityValid(s, id);
    case CreatePreAuthCall(r) => PreAuthValid(s, r, victim);
    case CheckPreAuthCall(_) =>
    case ConsumePreAuthCall(p) => ConsumeValid(s, p);
  }

  /** At most one challenge is active for a purpose and an email. */
  lemma OneActive(s: State, id: string, other: string)
    requires Indexed(s.challenges, s.active) && id in s.challenges && other in s.challenges
    requires s.challenges[id].active && s.challenges[other].active
    requires s.challenges[id].reservation.purpose == s.challenges[other].reservation.purpose
    requires s.challenges[id].reservation.email == s.challenges[other].reservation.email
    ensures id == other
  {
    assert ActiveKey(s.challenges[id].reservation) == ActiveKey(s.challenges[other].reservation);
  }

  /** So the index itself is bounded too. */
  lemma IndexBounded(s: State)
    requires Valid(s)
    ensures |s.active| <= |s.challenges| <= s.capacity
  {
    InjectiveSize(s.active, s.active.Keys, s.challenges.Keys);
  }

  lemma {:induction false} InjectiveSize(m: map<Holder, string>, keys: set<Holder>, values: set<string>)
    requires keys <= m.Keys && forall key :: key in keys ==> m[key] in values
    requires forall x, y :: x in keys && y in keys && m[x] == m[y] ==> x == y
    ensures |keys| <= |values|
  {
    if keys != {} {
      var key :| key in keys;
      InjectiveSize(m, keys - {key}, values - {m[key]});
    }
  }
}

/** The shared store's server: hashes, sets and sorted sets with expiry, and each script as one atomic function. */
module RedisServer {
  import opened Wrappers
  import opened Otp

  const WINDOW := 3_600_000
  const LEASE := 30_000
  const CODE := 300_000
  const PAGE := 600_000
  const IDLE_MS := 86_400_000

  /** Server time in milliseconds. */
  type Millis = int

  /** The digest of a session ID and its secret's digest; taken to tell pairs apart. */
  datatype Lease = Lease(session: string, digest: Digest)
  datatype Held = Held(lease: Lease, until: Millis)

  datatype Code = Code(
    email: string, keyId: string, purpose: Purpose, verifier: Digest, binding: Digest,
    attempts: nat, active: bool, held: Option<Held>, until: Millis)
  datatype Pointer = Pointer(id: string, until: Millis)
  datatype Login = Login(
    digest: Digest, csrf: Digest, identity: Identity, created: Millis, lastSeen: Millis, expires: Millis, until: Millis)
  /** The session IDs of one identity. */
  datatype Index = Index(members: set<string>, until: Millis)
  datatype PageHash = PageHash(digest: Digest, csrf: Digest, until: Millis)

  /** The keys of the sorted sets; an address or a source stands for its digest. */
  datatype Rate = SendTo(email: string) | SendFrom(source: string) | Checks(source: string) | Misses(email: string) | Bootstraps(source: string)
  /** A member's text is its score and one of these. */
  datatype Mark = ById(id: string) | ByLease(lease: Lease)
  type Uses = set<(Millis, Mark)>
  datatype Sorted = Sorted(members: Uses, until: Millis)

  datatype Server = Server(
    now: Millis,
    codes: map<string, Code>,
    active: map<Holder, Pointer>,
    logins: map<string, Login>,
    indexes: map<string, Index>,
    markers: map<Lease, Millis>,
    pages: map<string, PageHash>,
    rates: map<Rate, Sorted>)

  datatype Reply = Reply(server: Server, code: int)

  // ---------------------------------------------------------------- expiry

  /** Time moves on, and every key whose time has passed is gone. */
  function Tick(s: Server, now: Millis): Server
  {
    Server(now,
           map id | id in s.codes && s.codes[id].until >= now :: s.codes[id],
           map key | key in s.active && s.active[key].until >= now :: s.active[key],
           map id | id in s.logins && s.logins[id].until >= now :: s.logins[id],
           map id | id in s.indexes && s.indexes[id].until >= now :: s.indexes[id],
           map lease | lease in s.markers && s.markers[lease] >= now :: s.markers[lease],
           map id | id in s.pages && s.pages[id].until >= now :: s.pages[id],
           map rate | rate in s.rates && s.rates[rate].until >= now :: s.rates[rate])
  }

  // ----------------------------------------------------------------- rates

  function Members(rates: map<Rate, Sorted>, rate: Rate): Uses
  {
    if rate in rates then rates[rate].members else {}
  }

  /** ZREMRANGEBYSCORE from the beginning to an hour ago; an emptied key goes. */
  function Trimmed(rates: map<Rate, Sorted>, rate: Rate, now: Millis): map<Rate, Sorted>
  {
    var left := set m | m in Members(rates, rate) && m.0 > now - WINDOW;
    if left == {} then rates - {rate} else rates[rate := rates[rate].(members := left)]
  }

  /** ZADD, and the key lives a minute longer than the window. */
  function Added(rates: map<Rate, Sorted>, rate: Rate, now: Millis, mark: Mark): map<Rate, Sorted>
  {
    rates[rate := Sorted(Members(rates, rate) + {(now, mark)}, now + WINDOW + 60_000)]
  }

  /** Is the highest score less than a minute old? */
  predicate SentJustNow(members: Uses, now: Millis)
  {
    exists m :: m in members && now - m.0 < 60_000
  }

  // --------------------------------------------------------------- scripts

  function ReserveScript(s: Server, r: Reservation): Reply
  {
    var t := s.(rates := Trimmed(Trimmed(s.rates, SendTo(r.email), s.now), SendFrom(r.source), s.now));
    var address := Members(t.rates, SendTo(r.email));
    if |address| >= SENDS_PER_ADDRESS || |Members(t.rates, SendFrom(r.source))| >= SENDS_PER_SOURCE then Reply(t, 2)
    else if SentJustNow(address, s.now) then Reply(t, 2)
    else Reply(Replaced(t.(rates := Added(Added(t.rates, SendTo(r.email), s.now, ById(r.id)), SendFrom(r.source), s.now, ById(r.id))), r), 1)
  }

  function Disabled(codes: map<string, Code>, id: string): map<string, Code>
  {
    if id in codes then codes[id := codes[id].(active := false)] else codes
  }

  /** HSET writes the listed fields only: a lease on a reused ID would stay. */
  function Replaced(s: Server, r: Reservation): Server
  {
    var key := ActiveKey(r);
    var codes := if key in s.active then Disabled(s.codes, s.active[key].id) else s.codes;
    var held := if r.id in codes then codes[r.id].held else None;
    s.(active := s.active[key := Pointer(r.id, s.now + CODE)],
       codes := codes[r.id := Code(r.email, r.keyId, r.purpose, r.verifier, r.binding, 0, true, held, s.now + CODE)])
  }

  function LeaseOf(v: Verification): Lease
  {
    Lease(v.session.id, v.session.digest)
  }

  predicate CodeMatches(c: Code, v: Verification)
  {
    c.email == v.email && c.keyId == v.keyId && c.purpose == v.purpose && c.verifier == v.verifier && c.binding == v.binding
  }

  function VerifyScript(s: Server, v: Verification): Reply
  {
    var t := s.(rates := Trimmed(s.rates, Checks(v.source), s.now));
    if |Members(t.rates, Checks(v.source))| >= VERIFICATIONS_PER_SOURCE then Reply(t, 2)
    else CheckCode(t.(rates := Added(t.rates, Checks(v.source), s.now, ByLease(LeaseOf(v)))), v)
  }

  predicate LeaseRuns(c: Code, now: Millis)
  {
    c.held.Some? && c.held.value.until > now
  }

  function CheckCode(s: Server, v: Verification): Reply
  {
    if v.id !in s.codes || !s.codes[v.id].active || LeaseRuns(s.codes[v.id], s.now) then Reply(s, 0)
    else
      var free := s.codes[v.id].(held := None);
      if CodeMatches(free, v) then
        Reply(s.(codes := s.codes[v.id := free.(held := Some(Held(LeaseOf(v), s.now + LEASE)))]), 1)
      else CountMiss(s.(codes := s.codes[v.id := free]), v, free)
  }

  function CountMiss(s: Server, v: Verification, c: Code): Reply
  {
    var t := s.(rates := Trimmed(s.rates, Misses(c.email), s.now));
    if |Members(t.rates, Misses(c.email))| >= FAILURES_PER_ADDRESS then Reply(t, 2)
    else
      Reply(t.(rates := Added(t.rates, Misses(c.email), s.now, ByLease(LeaseOf(v))),
               codes := t.codes[v.id := c.(attempts := c.attempts + 1, active := c.active && c.attempts + 1 < ATTEMPTS)]), 0)
  }

  predicate Holds(s: Server, id: string, lease: Lease)
  {
    id in s.codes && s.codes[id].held.Some? && s.codes[id].held.value.lease == lease
  }

  function ReleaseScript(s: Server, id: string, lease: Lease): Reply
  {
    if Holds(s, id, lease) then Reply(s.(codes := s.codes[id := s.codes[id].(held := None)]), 1) else Reply(s, 0)
  }

  function RejectScript(s: Server, id: string, lease: Lease): Reply
  {
    if Holds(s, id, lease) then Reply(s.(codes := s.codes[id := s.codes[id].(active := false, held := None)]), 1) else Reply(s, 0)
  }

  function InvalidateScript(s: Server, id: string): Reply
  {
    Reply(s.(codes := Disabled(s.codes, id)), 1)
  }

  /** The script that consumes the code and makes the session. */
  function CompleteScript(s: Server, id: string, lease: Lease, session: SessionRecord, identity: Identity, duration: Millis): Reply
  {
    if lease in s.markers then Reply(s, 1)
    else if !Holds(s, id, lease) then Reply(s, 0)
    else Reply(Completed(s, id, lease, session, identity, duration), 1)
  }

  function Completed(s: Server, id: string, lease: Lease, session: SessionRecord, identity: Identity, duration: Millis): Server
  {
    var until := s.now + duration;
    s.(logins := s.logins[session.id := Login(session.digest, session.csrf, identity, s.now, s.now, until, until)],
       indexes := s.indexes[identity.id := Index(Listed(s.indexes, identity.id) + {session.id}, until)],
       markers := s.markers[lease := s.now + CODE],
       codes := s.codes - {id})
  }

  function Listed(indexes: map<string, Index>, identity: string): set<string>
  {
    if identity in indexes then indexes[identity].members else {}
  }

  predicate Stale(l: Login, now: Millis)
  {
    now >= l.expires || now >= l.lastSeen + IDLE_MS
  }

  predicate Presented(s: Server, p: SessionProof)
  {
    p.id in s.logins && s.logins[p.id].digest == p.digest
  }

  /** 1 stands for the identity's fields, 0 for the empty answer. */
  function SessionScript(s: Server, p: SessionProof): Reply
  {
    if !Presented(s, p) || (p.csrf != 0 && s.logins[p.id].csrf != p.csrf) then Reply(s, 0)
    else if Stale(s.logins[p.id], s.now) then Reply(s.(logins := s.logins - {p.id}), 0)
    else Reply(s.(logins := s.logins[p.id := s.logins[p.id].(lastSeen := s.now, until := s.logins[p.id].expires)]), 1)
  }

  /** SREM; an emptied set goes. */
  function Unlisted(indexes: map<string, Index>, identity: string, session: string): map<string, Index>
  {
    var left := Listed(indexes, identity) - {session};
    if left == {} then indexes - {identity} else indexes[identity := indexes[identity].(members := left)]
  }

  function RevokeScript(s: Server, p: SessionProof): Reply
  {
    if !Presented(s, p) then Reply(s, 0)
    else
      Reply(s.(indexes := Unlisted(s.indexes, s.logins[p.id].identity.id, p.id), logins := s.logins - {p.id}), 1)
  }

  /** Every listed session and the index itself; nothing else is deleted by name. */
  function Purged(s: Server, identity: string): Server
  {
    s.(logins := s.logins - Listed(s.indexes, identity), indexes := s.indexes - {identity})
  }

  function RevokeAllScript(s: Server, p: SessionProof): Reply
  {
    if !Presented(s, p) then Reply(s, 0)
    else if Stale(s.logins[p.id], s.now) then Reply(s.(logins := s.logins - {p.id}), 0)
    else Reply(Purged(s, s.logins[p.id].identity.id), 1)
  }

  function RevokeIdentityScript(s: Server, identity: string): Reply
  {
    Reply(Purged(s, identity), 1)
  }

  function CreatePageScript(s: Server, r: PreAuthRecord): Reply
  {
    if r.id in s.pages then Reply(s, 0)
    else
      var t := s.(rates := Trimmed(s.rates, Bootstraps(r.source), s.now));
      if |Members(t.rates, Bootstraps(r.source))| >= BOOTSTRAPS_PER_SOURCE then Reply(t, 2)
      else
        Reply(t.(rates := Added(t.rates, Bootstraps(r.source), s.now, ById(r.id)),
                 pages := t.pages[r.id := PageHash(r.digest, r.csrf, s.now + PAGE)]), 1)
  }

  predicate PageShown(s: Server, p: PreAuthProof)
  {
    p.id in s.pages && s.pages[p.id].digest == p.digest && s.pages[p.id].csrf == p.csrf
  }

  function ConsumePageScript(s: Server, p: PreAuthProof): Reply
  {
    if PageShown(s, p) then Reply(s.(pages := s.pages - {p.id}), 1) else Reply(s, 0)
  }

  // ---------------------------------------------------- what scripts leave alone

  lemma SessionFrame(s: Server, p: SessionProof)
    ensures SessionScript(s, p).server == s.(logins := SessionScript(s, p).server.logins)
  {
  }

  lemma RevokeFrame(s: Server, p: SessionProof)
    ensures RevokeScript(s, p).server == s.(logins := RevokeScript(s, p).server.logins, indexes := RevokeScript(s, p).server.indexes)
  {
  }

  lemma RevokeAllFrame(s: Server, p: SessionProof)
    ensures RevokeAllScript(s, p).server == s.(logins := RevokeAllScript(s, p).server.logins, indexes := RevokeAllScript(s, p).server.indexes)
  {
  }
}

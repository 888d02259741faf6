/** The scripts as they run on the server: command after command, with nothing in between. */
module RedisScripts {
  import opened Wrappers
  import opened Otp
  import opened RedisServer

  class Redis {
    var now: Millis
    var codes: map<string, Code>
    var active: map<Holder, Pointer>
    var logins: map<string, Login>
    var indexes: map<string, Index>
    var markers: map<Lease, Millis>
    var pages: map<string, PageHash>
    var rates: map<Rate, Sorted>

    function Contents(): Server
      reads this
    {
      Server(now, codes, active, logins, indexes, markers, pages, rates)
    }

    constructor (start: Millis)
      ensures Contents() == Server(start, map[], map[], map[], map[], map[], map[], map[])
    {
      now := start;
      codes, active, logins, indexes := map[], map[], map[], map[];
      markers, pages, rates := map[], map[], map[];
    }

    /** ZREMRANGEBYSCORE. */
    method Trim(rate: Rate)
      modifies this`rates
      ensures rates == Trimmed(old(rates), rate, now)
    {
      if rate in rates {
        var left := set m | m in rates[rate].members && m.0 > now - WINDOW;
        if |left| == 0 {
          rates := rates - {rate};
        } else {
          rates := rates[rate := rates[rate].(members := left)];
        }
      }
    }

    /** ZADD and PEXPIRE. */
    method Add(rate: Rate, mark: Mark)
      modifies this`rates
      ensures rates == Added(old(rates), rate, now, mark)
    {
      rates := rates[rate := Sorted(Members(rates, rate) + {(now, mark)}, now + WINDOW + 60_000)];
    }

    method Reserve(r: Reservation) returns (code: int)
      modifies this`rates, this`codes, this`active
      ensures Reply(Contents(), code) == ReserveScript(old(Contents()), r)
    {
      Trim(SendTo(r.email));
      Trim(SendFrom(r.source));
      if |Members(rates, SendTo(r.email))| >= 5 || |Members(rates, SendFrom(r.source))| >= 20 {
        return 2;
      }
      if SentJustNow(Members(rates, SendTo(r.email)), now) {
        return 2;
      }
      Add(SendTo(r.email), ById(r.id));
      Add(SendFrom(r.source), ById(r.id));
      Replace(r);
      return 1;
    }

    method Replace(r: Reservation)
      modifies this`codes, this`active
      ensures Contents() == Replaced(old(Contents()), r)
    {
      var key := ActiveKey(r);
      if key in active && active[key].id in codes {
        codes := codes[active[key].id := codes[active[key].id].(active := false)];
      }
      active := active[key := Pointer(r.id, now + 300_000)];
      var held := if r.id in codes then codes[r.id].held else None;
      codes := codes[r.id := Code(r.email, r.keyId, r.purpose, r.verifier, r.binding, 0, true, held, now + 300_000)];
    }

    method Verify(v: Verification) returns (code: int)
      modifies this`rates, this`codes
      ensures Reply(Contents(), code) == VerifyScript(old(Contents()), v)
    {
      Trim(Checks(v.source));
      if |Members(rates, Checks(v.source))| >= 100 {
        return 2;
      }
      Add(Checks(v.source), ByLease(LeaseOf(v)));
      code := Check(v);
    }

    method Check(v: Verification) returns (code: int)
      modifies this`rates, this`codes
      ensures Reply(Contents(), code) == CheckCode(old(Contents()), v)
    {
      if v.id !in codes {
        return 0;
      }
      var values := codes[v.id];
      if !values.active {
        return 0;
      }
      if values.held.Some? && values.held.value.until > now {
        return 0;
      }
      codes := codes[v.id := values.(held := None)];
      if !CodeMatches(values, v) {
        code := Miss(v, values.(held := None));
        return;
      }
      codes := codes[v.id := codes[v.id].(held := Some(Held(LeaseOf(v), now + 30_000)))];
      return 1;
    }

    method Miss(v: Verification, c: Code) returns (code: int)
      requires v.id in codes && codes[v.id] == c
      modifies this`rates, this`codes
      ensures Reply(Contents(), code) == CountMiss(old(Contents()), v, c)
    {
      Trim(Misses(c.email));
      if |Members(rates, Misses(c.email))| >= 20 {
        return 2;
      }
      Add(Misses(c.email), ByLease(LeaseOf(v)));
      var attempts := codes[v.id].attempts + 1;
      codes := codes[v.id := codes[v.id].(attempts := attempts)];
      if attempts >= 5 {
        codes := codes[v.id := codes[v.id].(active := false)];
      }
      return 0;
    }

    method Release(id: string, lease: Lease) returns (code: int)
      modifies this`codes
      ensures Reply(Contents(), code) == ReleaseScript(old(Contents()), id, lease)
    {
      if !Holds(Contents(), id, lease) {
        return 0;
      }
      codes := codes[id := codes[id].(held := None)];
      return 1;
    }

    method Reject(id: string, lease: Lease) returns (code: int)
      modifies this`codes
      ensures Reply(Contents(), code) == RejectScript(old(Contents()), id, lease)
    {
      if !Holds(Contents(), id, lease) {
        return 0;
      }
      codes := codes[id := codes[id].(active := false)];
      codes := codes[id := codes[id].(held := None)];
      return 1;
    }

    method Complete(id: string, lease: Lease, session: SessionRecord, identity: Identity, duration: Millis) returns (code: int)
      modifies this`codes, this`logins, this`indexes, this`markers
      ensures Reply(Contents(), code) == CompleteScript(old(Contents()), id, lease, session, identity, duration)
    {
      if lease in markers {
        return 1;
      }
      if !Holds(Contents(), id, lease) {
        return 0;
      }
      logins := logins[session.id := Login(session.digest, session.csrf, identity, now, now, now + duration, now + duration)];
      indexes := indexes[identity.id := Index(Listed(indexes, identity.id) + {session.id}, now + duration)];
      markers := markers[lease := now + 300_000];
      codes := codes - {id};
      return 1;
    }

    method Session(p: SessionProof) returns (code: int)
      modifies this`logins
      ensures Reply(Contents(), code) == SessionScript(old(Contents()), p)
    {
      if !Presented(Contents(), p) || (p.csrf != 0 && logins[p.id].csrf != p.csrf) {
        return 0;
      }
      var v := logins[p.id];
      if now >= v.expires || now >= v.lastSeen + 86_400_000 {
        logins := logins - {p.id};
        return 0;
      }
      logins := logins[p.id := v.(lastSeen := now)];
      logins := logins[p.id := logins[p.id].(until := v.expires)];
      return 1;
    }

    method Revoke(p: SessionProof) returns (code: int)
      modifies this`logins, this`indexes
      ensures Reply(Contents(), code) == RevokeScript(old(Contents()), p)
    {
      if !Presented(Contents(), p) {
        return 0;
      }
      indexes := Unlisted(indexes, logins[p.id].identity.id, p.id);
      logins := logins - {p.id};
      return 1;
    }

    /** Deletes the listed sessions one by one, then the index. */
    method Purge(identity: string)
      modifies this`logins, this`indexes
      ensures Contents() == Purged(old(Contents()), identity)
    {
      var sessions := Listed(indexes, identity);
      while sessions != {}
        invariant sessions <= Listed(indexes, identity)
        invariant indexes == old(indexes) && logins == old(logins) - (Listed(indexes, identity) - sessions)
      {
        var id :| id in sessions;
        logins := logins - {id};
        sessions := sessions - {id};
      }
      assert Listed(indexes, identity) - {} == Listed(indexes, identity);
      indexes := indexes - {identity};
    }

    method RevokeAll(p: SessionProof) returns (code: int)
      modifies this`logins, this`indexes
      ensures Reply(Contents(), code) == RevokeAllScript(old(Contents()), p)
    {
      if !Presented(Contents(), p) {
        return 0;
      }
      var v := logins[p.id];
      if now >= v.expires || now >= v.lastSeen + 86_400_000 {
        logins := logins - {p.id};
        return 0;
      }
      Purge(v.identity.id);
      return 1;
    }
  }
}

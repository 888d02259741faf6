/** The server's rolling budgets over whole runs: trimming, expiry and refusals never let a window overflow. */
module RedisBudgets {
  import opened Wrappers
  import opened Otp
  import opened RedisServer
  import opened RedisProtocol

  function Cap(rate: Rate): nat
  {
    match rate
    case SendTo(_) => SENDS_PER_ADDRESS
    case SendFrom(_) => SENDS_PER_SOURCE
    case Checks(_) => VERIFICATIONS_PER_SOURCE
    case Misses(_) => FAILURES_PER_ADDRESS
    case Bootstraps(_) => BOOTSTRAPS_PER_SOURCE
  }

  /** Every member the sorted set ever had. */
  function Used(w: World, actions: seq<Action>, rate: Rate): Uses
  {
    Members(After(w, actions).server.rates, rate) + if actions == [] then {} else Used(w, actions[..|actions| - 1], rate)
  }

  function Entry(rates: map<Rate, Sorted>, rate: Rate): Option<Sorted>
  {
    if rate in rates then Some(rates[rate]) else None
  }

  function Of(e: Option<Sorted>): Uses
  {
    if e.Some? then e.value.members else {}
  }

  function Newer(uses: Uses, now: Millis): Uses
  {
    set m | m in uses && m.0 > now - WINDOW
  }

  /** How a script moves one sorted set at the server's time. */
  predicate Moves(rate: Rate, e: Option<Sorted>, f: Option<Sorted>, now: Millis)
  {
    f == e || IsTrimmed(e, f, now) || IsAdded(rate, e, f, now)
  }

  predicate IsTrimmed(e: Option<Sorted>, f: Option<Sorted>, now: Millis)
  {
    Of(f) == Newer(Of(e), now) && (f.Some? ==> e.Some? && f.value.until == e.value.until)
  }

  predicate IsAdded(rate: Rate, e: Option<Sorted>, f: Option<Sorted>, now: Millis)
  {
    && f.Some? && f.value.until == now + WINDOW + 60_000
    && (exists m :: m in Of(f) && m.0 == now && Of(f) == Newer(Of(e), now) + {m})
    && |Newer(Of(e), now)| < Cap(rate)
    && (rate.SendTo? ==> !SentJustNow(Newer(Of(e), now), now))
  }

  lemma TrimMoves(rates: map<Rate, Sorted>, rate: Rate, now: Millis, other: Rate)
    ensures if other == rate then IsTrimmed(Entry(rates, rate), Entry(Trimmed(rates, rate, now), rate), now)
            else Entry(Trimmed(rates, rate, now), other) == Entry(rates, other)
    ensures Members(Trimmed(rates, rate, now), rate) == Newer(Of(Entry(rates, rate)), now)
  {
  }

  lemma AddEntry(rates: map<Rate, Sorted>, rate: Rate, now: Millis, mark: Mark, other: Rate)
    ensures Entry(Added(rates, rate, now, mark), other)
            == if other == rate then Some(Sorted(Members(rates, rate) + {(now, mark)}, now + WINDOW + 60_000)) else Entry(rates, other)
  {
  }

  lemma AddedIs(rate: Rate, e: Option<Sorted>, left: Uses, now: Millis, mark: Mark)
    requires left == Newer(Of(e), now) && |left| < Cap(rate) && (rate.SendTo? ==> !SentJustNow(left, now))
    ensures IsAdded(rate, e, Some(Sorted(left + {(now, mark)}, now + WINDOW + 60_000)), now)
  {
    assert (now, mark) in left + {(now, mark)};
  }

  lemma AddMoves(rates: map<Rate, Sorted>, rate: Rate, now: Millis, mark: Mark)
    requires |Newer(Of(Entry(rates, rate)), now)| < Cap(rate)
    requires rate.SendTo? ==> !SentJustNow(Newer(Of(Entry(rates, rate)), now), now)
    ensures IsAdded(rate, Entry(rates, rate), Entry(Added(Trimmed(rates, rate, now), rate, now, mark), rate), now)
  {
    TrimMoves(rates, rate, now, rate);
    AddEntry(Trimmed(rates, rate, now), rate, now, mark, rate);
    AddedIs(rate, Entry(rates, rate), Members(Trimmed(rates, rate, now), rate), now, mark);
  }

  /** Both send sets trimmed. */
  function SendsTrimmed(s: Server, r: Reservation): map<Rate, Sorted>
  {
    Trimmed(Trimmed(s.rates, SendTo(r.email), s.now), SendFrom(r.source), s.now)
  }

  lemma SendsTrimmedMove(s: Server, r: Reservation, rate: Rate)
    ensures if rate == SendTo(r.email) || rate == SendFrom(r.source)
            then IsTrimmed(Entry(s.rates, rate), Entry(SendsTrimmed(s, r), rate), s.now)
            else Entry(SendsTrimmed(s, r), rate) == Entry(s.rates, rate)
  {
    var one := Trimmed(s.rates, SendTo(r.email), s.now);
    TrimMoves(s.rates, SendTo(r.email), s.now, rate);
    TrimMoves(one, SendFrom(r.source), s.now, rate);
  }

  lemma ReserveRates(s: Server, r: Reservation)
    ensures var two, reply := SendsTrimmed(s, r), ReserveScript(s, r);
            if reply.code == 1 then
              reply.server.rates == Added(Added(two, SendTo(r.email), s.now, ById(r.id)), SendFrom(r.source), s.now, ById(r.id))
              && |Members(two, SendTo(r.email))| < SENDS_PER_ADDRESS && |Members(two, SendFrom(r.source))| < SENDS_PER_SOURCE
              && !SentJustNow(Members(two, SendTo(r.email)), s.now)
            else reply.server.rates == two
  {
  }

  lemma ReserveMoves(s: Server, r: Reservation, rate: Rate)
    ensures Moves(rate, Entry(s.rates, rate), Entry(ReserveScript(s, r).server.rates, rate), s.now)
  {
    var two, mark := SendsTrimmed(s, r), ById(r.id);
    ReserveRates(s, r);
    SendsTrimmedMove(s, r, rate);
    if ReserveScript(s, r).code == 1 {
      AddEntry(two, SendTo(r.email), s.now, mark, rate);
      AddEntry(Added(two, SendTo(r.email), s.now, mark), SendFrom(r.source), s.now, mark, rate);
      if rate == SendTo(r.email) || rate == SendFrom(r.source) {
        AddedIs(rate, Entry(s.rates, rate), Members(two, rate), s.now, mark);
      }
    }
  }

  lemma VerifyMoves(s: Server, v: Verification, rate: Rate)
    ensures Moves(rate, Entry(s.rates, rate), Entry(VerifyScript(s, v).server.rates, rate), s.now)
  {
    var checks := Checks(v.source);
    var trimmed := Trimmed(s.rates, checks, s.now);
    TrimMoves(s.rates, checks, s.now, rate);
    TrimMoves(s.rates, checks, s.now, checks);
    if |Members(trimmed, checks)| < VERIFICATIONS_PER_SOURCE {
      var added := Added(trimmed, checks, s.now, ByLease(LeaseOf(v)));
      AddMoves(s.rates, checks, s.now, ByLease(LeaseOf(v)));
      AddEntry(trimmed, checks, s.now, ByLease(LeaseOf(v)), rate);
      CheckMoves(s.(rates := added), v, rate);
    }
  }

  lemma CheckMoves(s: Server, v: Verification, rate: Rate)
    ensures var f := Entry(CheckCode(s, v).server.rates, rate);
            if rate.Misses? then Moves(rate, Entry(s.rates, rate), f, s.now) else f == Entry(s.rates, rate)
  {
    if v.id in s.codes && s.codes[v.id].active && !LeaseRuns(s.codes[v.id], s.now) && !CodeMatches(s.codes[v.id], v) {
      var free := s.codes[v.id].(held := None);
      MissMoves(s.(codes := s.codes[v.id := free]), v, free, rate);
    }
  }

  lemma MissMoves(s: Server, v: Verification, c: Code, rate: Rate)
    ensures var f := Entry(CountMiss(s, v, c).server.rates, rate);
            if rate.Misses? then Moves(rate, Entry(s.rates, rate), f, s.now) else f == Entry(s.rates, rate)
  {
    var misses := Misses(c.email);
    TrimMoves(s.rates, misses, s.now, rate);
    TrimMoves(s.rates, misses, s.now, misses);
    AddEntry(Trimmed(s.rates, misses, s.now), misses, s.now, ByLease(LeaseOf(v)), rate);
    if |Members(Trimmed(s.rates, misses, s.now), misses)| < FAILURES_PER_ADDRESS {
      AddMoves(s.rates, misses, s.now, ByLease(LeaseOf(v)));
    }
  }

  lemma PageMoves(s: Server, r: PreAuthRecord, rate: Rate)
    ensures Moves(rate, Entry(s.rates, rate), Entry(CreatePageScript(s, r).server.rates, rate), s.now)
  {
    var boots := Bootstraps(r.source);
    TrimMoves(s.rates, boots, s.now, rate);
    TrimMoves(s.rates, boots, s.now, boots);
    if r.id !in s.pages && |Members(Trimmed(s.rates, boots, s.now), boots)| < BOOTSTRAPS_PER_SOURCE {
      AddMoves(s.rates, boots, s.now, ById(r.id));
    }
  }

  lemma DeliverMoves(w: World, request: Request, rate: Rate)
    ensures Moves(rate, Entry(w.server.rates, rate), Entry(Delivered(w, request).server.rates, rate), w.server.now)
    ensures Delivered(w, request).server.now == w.server.now
  {
    if request.session in w.clients {
      var c := w.clients[request.session];
      if request.AskLease? {
        VerifyMoves(w.server, c.attempt, rate);
        VerifyKeepsTime(w.server, c.attempt);
      } else {
        DeliverQuiet(w, request);
      }
    }
  }

  lemma VerifyKeepsTime(s: Server, v: Verification)
    ensures VerifyScript(s, v).server.now == s.now
  {
  }

  lemma DeliverQuiet(w: World, request: Request)
    requires request.session in w.clients && !request.AskLease?
    ensures Delivered(w, request).server.rates == w.server.rates && Delivered(w, request).server.now == w.server.now
  {
  }

  lemma HeardQuiet(w: World, response: Response)
    ensures Heard(w, response).server == w.server
  {
  }

  lemma GivenUpQuiet(w: World, session: string)
    ensures GivenUp(w, session).server == w.server
  {
  }

  lemma AskedQuiet(w: World, session: string, outcome: TxOutcome)
    ensures Asked(w, session, outcome).server == w.server
  {
  }

  lemma ServedMoves(s: Server, a: Action, rate: Rate)
    ensures Moves(rate, Entry(s.rates, rate), Entry(Served(s, a).rates, rate), s.now)
    ensures Served(s, a).now == s.now
  {
    if a.OpenPage? {
      PageMoves(s, a.record, rate);
    } else {
      ServedQuiet(s, a);
    }
  }

  lemma ServedQuiet(s: Server, a: Action)
    requires !a.OpenPage?
    ensures Served(s, a).rates == s.rates && Served(s, a).now == s.now
  {
    match a
    case UseSession(p) => SessionFrame(s, p);
    case Logout(p) => RevokeFrame(s, p);
    case LogoutAll(p) => RevokeAllFrame(s, p);
    case _ =>
  }

  lemma ActMoves(w: World, a: Action, rate: Rate)
    requires !a.Pass?
    ensures Moves(rate, Entry(w.server.rates, rate), Entry(Act(w, a).server.rates, rate), w.server.now)
    ensures Act(w, a).server.now == w.server.now
  {
    match a
    case ReserveCode(r) => ReserveMoves(w.server, r, rate);
    case Deliver(request) => DeliverMoves(w, request, rate);
    case Hear(response) => HeardQuiet(w, response);
    case GiveUp(session) => GivenUpQuiet(w, session);
    case Ask(session, outcome) => AskedQuiet(w, session, outcome);
    case _ => ServedMoves(w.server, a, rate);
  }

  // ------------------------------------------------------------ invariant

  /** The hour that ends with now. */
  function HourTo(uses: Uses, now: Millis): Uses
  {
    set m | m in uses && now - WINDOW < m.0 <= now
  }

  predicate Crowded(uses: Uses, limit: nat)
  {
    exists m :: m in uses && |HourTo(uses, m.0)| > limit
  }

  predicate Apart(uses: Uses)
  {
    forall m, n :: m in uses && n in uses && m.0 < n.0 ==> n.0 - m.0 >= 60_000
  }

  /** No two sends at one time either. */
  predicate Distinct(uses: Uses)
  {
    forall m, n :: m in uses && n in uses && m.0 == n.0 ==> m == n
  }

  /** What the sorted set still knows of all the uses there were. */
  predicate Kept(rate: Rate, e: Option<Sorted>, used: Uses, now: Millis)
  {
    && Of(e) <= used
    && (forall m :: m in used ==> m.0 <= now)
    && (forall m :: m in used && m.0 > now - WINDOW ==> m in Of(e))
    && (e.Some? ==> forall m :: m in Of(e) ==> m.0 + WINDOW + 60_000 <= e.value.until)
    && |Of(e)| <= Cap(rate)
    && !Crowded(used, Cap(rate))
    && (rate.SendTo? ==> Apart(used) && Distinct(used))
  }

  lemma {:induction false} Smaller<T>(a: set<T>, b: set<T>)
    requires a <= b
    ensures |a| <= |b|
  {
    if a != {} {
      var x :| x in a;
      Smaller(a - {x}, b - {x});
    }
  }

  lemma KeptPass(rate: Rate, rates: map<Rate, Sorted>, used: Uses, w: World, now: Millis)
    requires Kept(rate, Entry(w.server.rates, rate), used, w.server.now) && now >= w.server.now
    ensures Kept(rate, Entry(Tick(w.server, now).rates, rate), used, now)
  {
    var e, f := Entry(w.server.rates, rate), Entry(Tick(w.server, now).rates, rate);
    assert f == e || (e.Some? && e.value.until < now && f == None);
  }

  lemma KeptTrimmed(rate: Rate, e: Option<Sorted>, f: Option<Sorted>, used: Uses, now: Millis)
    requires Kept(rate, e, used, now) && IsTrimmed(e, f, now)
    ensures Kept(rate, f, used, now)
  {
    Smaller(Of(f), Of(e));
  }

  /** The new use fits: the hour it ends is what was left after trimming, and it. */
  lemma KeptAdded(rate: Rate, e: Option<Sorted>, f: Option<Sorted>, used: Uses, now: Millis)
    requires Kept(rate, e, used, now) && IsAdded(rate, e, f, now)
    ensures Kept(rate, f, used + Of(f), now)
  {
    var left := Newer(Of(e), now);
    var m :| m in Of(f) && m.0 == now && Of(f) == left + {m};
    UsesGrow(used, Of(e), Of(f), m, now, Cap(rate));
    if rate.SendTo? {
      SendsApart(used, Of(e), m, now);
    }
  }

  lemma UsesGrow(used: Uses, members: Uses, after: Uses, m: (Millis, Mark), now: Millis, limit: nat)
    requires members <= used && after == Newer(members, now) + {m} && m.0 == now && |Newer(members, now)| < limit
    requires (forall n :: n in used ==> n.0 <= now) && (forall n :: n in used && n.0 > now - WINDOW ==> n in members)
    requires !Crowded(used, limit)
    ensures used + after == used + {m} && |after| <= limit && !Crowded(used + after, limit)
  {
    var left := Newer(members, now);
    assert left <= used;
    Room(left, m, limit);
    NotCrowded(used, left, m, limit);
  }

  lemma NotCrowded(used: Uses, left: Uses, m: (Millis, Mark), limit: nat)
    requires !Crowded(used, limit) && |left + {m}| <= limit
    requires forall n :: n in used ==> n.0 <= m.0 && (n.0 > m.0 - WINDOW ==> n in left)
    ensures !Crowded(used + {m}, limit)
  {
    var all := used + {m};
    forall n | n in all ensures |HourTo(all, n.0)| <= limit {
      if n.0 == m.0 {
        Smaller(HourTo(all, n.0), left + {m});
      } else {
        assert HourTo(all, n.0) == HourTo(used, n.0);
      }
    }
  }

  lemma Room(left: Uses, m: (Millis, Mark), limit: nat)
    requires |left| < limit
    ensures |left + {m}| <= limit
  {
  }

  lemma SendsApart(used: Uses, members: Uses, m: (Millis, Mark), now: Millis)
    requires Apart(used) && Distinct(used) && m.0 == now && (forall n :: n in used ==> n.0 <= now)
    requires (forall n :: n in used && n.0 > now - WINDOW ==> n in members) && !SentJustNow(Newer(members, now), now)
    ensures Apart(used + {m}) && Distinct(used + {m})
  {
    forall n | n in used ensures now - n.0 >= 60_000 {
      assert n.0 > now - WINDOW ==> n in Newer(members, now);
    }
  }

  lemma {:induction false} RatesKept(w: World, actions: seq<Action>, rate: Rate)
    requires Start(w) && Possible(w, actions)
    ensures Kept(rate, Entry(After(w, actions).server.rates, rate), Used(w, actions, rate), After(w, actions).server.now)
  {
    if actions != [] {
      var front, a := actions[..|actions| - 1], actions[|actions| - 1];
      RatesKept(w, front, rate);
      var t, used := After(w, front), Used(w, front, rate);
      var e, f := Entry(t.server.rates, rate), Entry(After(w, actions).server.rates, rate);
      assert Of(f) == Members(After(w, actions).server.rates, rate);
      assert Used(w, actions, rate) == used + Of(f);
      if a.Pass? {
        KeptPass(rate, t.server.rates, used, t, a.now);
        assert used + Of(f) == used;
      } else {
        ActMoves(t, a, rate);
        MovesKept(rate, e, f, used, t.server.now);
      }
    }
  }

  lemma MovesKept(rate: Rate, e: Option<Sorted>, f: Option<Sorted>, used: Uses, now: Millis)
    requires Kept(rate, e, used, now) && Moves(rate, e, f, now)
    ensures Kept(rate, f, used + Of(f), now)
  {
    if IsAdded(rate, e, f, now) {
      KeptAdded(rate, e, f, used, now);
    } else {
      assert Of(f) <= Of(e);
      assert used + Of(f) == used;
      if f != e {
        KeptTrimmed(rate, e, f, used, now);
      }
    }
  }

  /** The uses in the hour from the given time, its end excluded. */
  function HourFrom(uses: Uses, from: Millis): Uses
  {
    set m | m in uses && from <= m.0 < from + WINDOW
  }

  lemma {:induction false} Latest(uses: Uses) returns (m: (Millis, Mark))
    requires uses != {}
    ensures m in uses && forall n :: n in uses ==> n.0 <= m.0
  {
    m :| m in uses;
    if uses != {m} {
      var other := Latest(uses - {m});
      if other.0 > m.0 {
        m := other;
      }
    }
  }

  /** In every one-hour window, over every interleaving, no sorted set admits more than its limit. */
  lemma RedisRollingBudgets(w: World, actions: seq<Action>, rate: Rate, from: Millis)
    requires Start(w) && Possible(w, actions)
    ensures |HourFrom(Used(w, actions, rate), from)| <= Cap(rate)
    ensures rate.SendTo? ==> Apart(Used(w, actions, rate)) && Distinct(Used(w, actions, rate))
  {
    RatesKept(w, actions, rate);
    var used := Used(w, actions, rate);
    var hour := HourFrom(used, from);
    if hour != {} {
      var m := Latest(hour);
      assert hour <= HourTo(used, m.0);
      Smaller(hour, HourTo(used, m.0));
    }
  }

  /** An accepted reservation is such a use, of its email's set and of its source's. */
  lemma AcceptedSendsAreUses(w: World, actions: seq<Action>, r: Reservation)
    requires ReserveScript(After(w, actions).server, r).code == 1
    ensures var now := After(w, actions).server.now;
            (now, ById(r.id)) in Used(w, actions + [ReserveCode(r)], SendTo(r.email))
            && (now, ById(r.id)) in Used(w, actions + [ReserveCode(r)], SendFrom(r.source))
  {
    var more := actions + [ReserveCode(r)];
    assert more[..|more| - 1] == actions;
  }

  /** Every verification past the source's gate is one of its checks. Calls of different leases are different uses. */
  lemma GatedChecksAreUses(w: World, actions: seq<Action>, session: string)
    requires session in After(w, actions).clients && PassesGate(After(w, actions).server, After(w, actions).clients[session].attempt)
    ensures var t := After(w, actions);
            var v := t.clients[session].attempt;
            (t.server.now, ByLease(LeaseOf(v))) in Used(w, actions + [Deliver(AskLease(session))], Checks(v.source))
  {
    var t, more := After(w, actions), actions + [Deliver(AskLease(session))];
    assert more[..|more| - 1] == actions;
    GateMarks(t.server, t.clients[session].attempt);
  }

  /** The source has spent fewer than its hundred checks of the last hour. */
  predicate PassesGate(s: Server, v: Verification)
  {
    |Members(Trimmed(s.rates, Checks(v.source), s.now), Checks(v.source))| < VERIFICATIONS_PER_SOURCE
  }

  lemma GateMarks(s: Server, v: Verification)
    requires PassesGate(s, v)
    ensures (s.now, ByLease(LeaseOf(v))) in Members(VerifyScript(s, v).server.rates, Checks(v.source))
  {
    var checks := Checks(v.source);
    var added := Added(Trimmed(s.rates, checks, s.now), checks, s.now, ByLease(LeaseOf(v)));
    CheckMoves(s.(rates := added), v, checks);
    assert Entry(added, checks).Some? && (s.now, ByLease(LeaseOf(v))) in Members(added, checks);
  }

  /** A counted mismatch is a use of its address's misses. */
  lemma CountedMissesAreUses(s: Server, v: Verification)
    requires v.id in s.codes && v.id in VerifyScript(s, v).server.codes
    requires VerifyScript(s, v).server.codes[v.id].attempts > s.codes[v.id].attempts
    ensures (s.now, ByLease(LeaseOf(v))) in Members(VerifyScript(s, v).server.rates, Misses(s.codes[v.id].email))
  {
    var trimmed := Trimmed(s.rates, Checks(v.source), s.now);
    CountedByCheck(s.(rates := Added(trimmed, Checks(v.source), s.now, ByLease(LeaseOf(v)))), v);
  }

  lemma CountedByCheck(s: Server, v: Verification)
    requires v.id in s.codes && v.id in CheckCode(s, v).server.codes && CheckCode(s, v).server.codes[v.id].attempts > s.codes[v.id].attempts
    ensures (s.now, ByLease(LeaseOf(v))) in Members(CheckCode(s, v).server.rates, Misses(s.codes[v.id].email))
  {
    var free := s.codes[v.id].(held := None);
    CountedByMiss(s.(codes := s.codes[v.id := free]), v, free);
  }

  lemma CountedByMiss(s: Server, v: Verification, c: Code)
    requires v.id in s.codes && s.codes[v.id] == c
    ensures CountMiss(s, v, c).code == 0 ==> (s.now, ByLease(LeaseOf(v))) in Members(CountMiss(s, v, c).server.rates, Misses(c.email))
    ensures CountMiss(s, v, c).code != 0 ==> CountMiss(s, v, c).server.codes == s.codes
  {
  }

  /** An accepted bootstrap is a use of its source's. */
  lemma AcceptedBootstrapsAreUses(w: World, actions: seq<Action>, r: PreAuthRecord)
    requires CreatePageScript(After(w, actions).server, r).code == 1
    ensures (After(w, actions).server.now, ById(r.id)) in Used(w, actions + [OpenPage(r)], Bootstraps(r.source))
  {
    var more := actions + [OpenPage(r)];
    assert more[..|more| - 1] == actions;
    PageMarks(After(w, actions).server, r);
  }

  lemma PageMarks(s: Server, r: PreAuthRecord)
    requires CreatePageScript(s, r).code == 1
    ensures (s.now, ById(r.id)) in Members(CreatePageScript(s, r).server.rates, Bootstraps(r.source))
  {
  }
}

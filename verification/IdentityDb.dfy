/** The durable identity table: one transaction that finds or creates the identity of a verified email. */
module IdentityDb {
  import opened Wrappers
  import opened Otp

  datatype Row = Row(identity: Identity, disabled: bool)
  /** invitations: when the invitation of an email was consumed, if it was. */
  datatype Db = Db(identities: map<string, Row>, invitations: map<string, Option<Time>>, invitationsRequired: bool)

  datatype Verdict = Eligible(identity: Identity) | Rejected | Failed

  predicate Invited(d: Db, email: string)
  {
    !d.invitationsRequired || (email in d.invitations && d.invitations[email].None?)
  }

  /** The ID column is the primary key. */
  predicate IdTaken(d: Db, id: string)
  {
    exists email :: email in d.identities && d.identities[email].identity.id == id
  }

  datatype Resolved = Resolved(db: Db, verdict: Verdict)

  /** The transaction when no statement fails. */
  function Resolution(d: Db, email: string, proposed: string, now: Time): Resolved
  {
    if email == "" || proposed == "" || now == 0 then Resolved(d, Rejected)
    else if email in d.identities then
      Resolved(d, if d.identities[email].disabled then Rejected else Eligible(d.identities[email].identity))
    else if !Invited(d, email) then Resolved(d, Rejected)
    else if IdTaken(d, proposed) then Resolved(d, Failed)
    else
      var identity := Identity(proposed, email, now);
      Resolved(d.(identities := d.identities[email := Row(identity, false)],
                  invitations := if d.invitationsRequired then d.invitations[email := Some(now)] else d.invitations),
               Eligible(identity))
  }

  /** Emails and IDs are unique, and where invitations are required each created identity used one up. */
  predicate Sound(d: Db)
  {
    && (forall email :: email in d.identities ==> d.identities[email].identity.email == email && d.identities[email].identity.id != "")
    && (forall e, f :: e in d.identities && f in d.identities && d.identities[e].identity.id == d.identities[f].identity.id ==> e == f)
  }

  predicate Admitted(d: Db)
  {
    d.invitationsRequired ==> forall email :: email in d.identities ==> email in d.invitations && d.invitations[email].Some?
  }

  /** No identity is lost or changed. */
  predicate Extends(d: Db, later: Db)
  {
    forall email :: email in d.identities ==> email in later.identities && later.identities[email] == d.identities[email]
  }

  lemma InsertSound(d: Db, email: string, identity: Identity, letters: map<string, Option<Time>>)
    requires Sound(d) && email !in d.identities && !IdTaken(d, identity.id) && identity.email == email && identity.id != ""
    ensures Sound(d.(identities := d.identities[email := Row(identity, false)], invitations := letters))
    ensures Extends(d, d.(identities := d.identities[email := Row(identity, false)], invitations := letters))
  {
  }

  /** Resolving keeps the table sound and loses no identity. */
  lemma ResolutionKeeps(d: Db, email: string, proposed: string, now: Time)
    requires Sound(d)
    ensures Sound(Resolution(d, email, proposed, now).db)
    ensures Extends(d, Resolution(d, email, proposed, now).db)
  {
    if email !in d.identities && proposed != "" && !IdTaken(d, proposed) {
      InsertSound(d, email, Identity(proposed, email, now), Resolution(d, email, proposed, now).db.invitations);
    }
  }

  /** Where invitations are required, every identity has used one up: no invitation admits two. */
  lemma ResolutionAdmits(d: Db, email: string, proposed: string, now: Time)
    requires Admitted(d)
    ensures Admitted(Resolution(d, email, proposed, now).db)
  {
  }

  /** Asked again, at any time and with any proposal, an eligible email gets the identity it first got. */
  lemma ResolutionIsIdempotent(d: Db, email: string, proposed: string, now: Time, again: string, later: Time)
    requires Resolution(d, email, proposed, now).verdict.Eligible? && again != "" && later != 0
    ensures Resolution(Resolution(d, email, proposed, now).db, email, again, later) == Resolution(d, email, proposed, now)
  {
  }

  class IdentityStore {
    const invitationsRequired: bool
    var identities: map<string, Row>
    var invitations: map<string, Option<Time>>

    function Contents(): Db
      reads this
    {
      Db(identities, invitations, invitationsRequired)
    }

    constructor (invitationsRequired: bool)
      ensures Contents() == Db(map[], map[], invitationsRequired)
    {
      this.invitationsRequired := invitationsRequired;
      identities := map[];
      invitations := map[];
    }

    /**
      Any statement may fail, and then the transaction rolls back. A failure at the commit leaves
      either state, which the caller cannot tell apart.
      */
    method ResolveVerified(email: string, proposed: string, now: Time) returns (verdict: Verdict)
      modifies this
      ensures verdict != Failed ==> Resolved(Contents(), verdict) == Resolution(old(Contents()), email, proposed, now)
      ensures verdict == Failed ==> Contents() == old(Contents()) || Contents() == Resolution(old(Contents()), email, proposed, now).db
    {
      if email == "" || proposed == "" || now == 0 {
        return Rejected;
      }
      var people, letters := identities, invitations;
      var fails: bool := *;
      if fails {
        return Failed;
      }
      if email in people {
        if people[email].disabled {
          return Rejected;
        }
        fails := *;
        if fails {
          return Failed;
        }
        return Eligible(people[email].identity);
      }
      if invitationsRequired && (email !in letters || letters[email].Some?) {
        return Rejected;
      }
      var identity := Identity(proposed, email, now);
      var taken := HasId(people, proposed);
      fails := *;
      if taken || fails {
        return Failed;
      }
      people := people[email := Row(identity, false)];
      if invitationsRequired {
        letters := letters[email := Some(now)];
        fails := *;
        if fails {
          return Failed;
        }
      }
      var committed: bool := *;
      if committed {
        identities, invitations := people, letters;
      }
      fails := *;
      if !committed || fails {
        return Failed;
      }
      return Eligible(identity);
    }

    static method HasId(people: map<string, Row>, id: string) returns (taken: bool)
      ensures taken <==> exists email :: email in people && people[email].identity.id == id
    {
      var emails := people.Keys;
      while emails != {}
        invariant emails <= people.Keys
        invariant forall email :: email in people && email !in emails ==> people[email].identity.id != id
      {
        var email :| email in emails;
        if people[email].identity.id == id {
          return true;
        }
        emails := emails - {email};
      }
      return false;
    }
  }
}

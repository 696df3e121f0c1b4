/** The services of Guardians as they change a child's rows. */
module GuardianStore {
  import opened Basics
  import opened Guardians

  class Child {
    var now: int
    var accounts: map<UserId, Account>
    var links: map<nat, Link>
    var nextLink: nat
    var invitations: map<nat, Invitation>
    var nextInvitation: nat
    var nextToken: nat
    var throttle: map<UserId, int>

    ghost function State(): Guardians.State
      reads this
    {
      Guardians.State.State(now, accounts, links, nextLink, invitations, nextInvitation, nextToken, throttle)
    }

    /** A child with one guardian, the adult who added it. */
    constructor (now: int, accounts: map<UserId, Account>, parent: UserId, relation: Relation)
      requires Responsible(relation)
      ensures Initial(State())
      ensures this.now == now && this.accounts == accounts && links == map[0 := Link(parent, relation)]
    {
      this.now, this.accounts := now, accounts;
      links, nextLink := map[0 := Link(parent, relation)], 1;
      invitations, nextInvitation, nextToken, throttle := map[], 0, 0, map[];
      new;
      assert links[0] == Link(parent, relation);
    }

    method Invite(email: Address, wellFormed: bool, relation: Option<Relation>, by': UserId, existing: Option<UserId>)
      returns (error: Option<Error>)
      requires by' in accounts && Found(State(), email, existing)
      modifies this`invitations, this`nextInvitation, this`nextToken, this`throttle
      ensures match Guardians.Invite(old(State()), email, wellFormed, relation, by', existing) {
                case Ok(after) => error == None && State() == after
                case Err(e) => error == Some(e) && State() == old(State())
              }
    {
      var sender := FindResponsible(by');
      if sender == Option.None {
        return Some(NotResponsible);
      }
      if !wellFormed {
        return Some(BadAddress);
      }
      if relation == Option.None {
        return Some(BadRelation);
      }
      if email == accounts[by'].email {
        return Some(OwnAddress);
      }
      if existing.Some? {
        if accounts[existing.value].kind == Ninja {
          return Some(ChildsLogin);
        }
        var guardian := HasLink(existing.value);
        if guardian {
          return Some(AlreadyGuardian);
        }
      }
      var waiting := HasWaiting(email);
      if waiting {
        return Some(AlreadyInvited);
      }
      var waits := Wait(by');
      if waits {
        return Some(TooSoon);
      }
      var row := Invitation(email, relation.value, by', now, now + VALID_DAYS * DAY, Option.None, Option.None, Option.None, 0);
      row := NewToken(row);
      invitations := invitations[nextInvitation := row];
      nextInvitation := nextInvitation + 1;
      error := Option.None;
    }

    /** `_throttle`: notes a minute from now, unless one is running. */
    method Wait(u: UserId) returns (waits: bool)
      modifies this`throttle
      ensures waits == Throttled(old(State()), u)
      ensures State() == if waits then old(State()) else Guardians.Throttle(old(State()), u)
    {
      waits := u in throttle && now < throttle[u];
      if !waits {
        throttle := throttle[u := now + THROTTLE_SECONDS];
      }
    }

    /** A token nobody has. */
    method NewToken(row: Invitation) returns (r: Invitation)
      modifies this`nextToken
      ensures r == row.(token := old(nextToken)) && nextToken == old(nextToken) + 1
    {
      r := row.(token := nextToken);
      nextToken := nextToken + 1;
    }

    /** The invitation behind a link, if there is one; there is never another. */
    method Find(token: Option<nat>) returns (found: Option<nat>)
      requires Numbered(State())
      ensures found.Some? ==> token.Some? && Opens(State(), token.value, found.value)
      ensures token.Some? ==> forall i: nat :: Opens(State(), token.value, i) ==> found == Some(i)
    {
      if token == Option.None {
        return Option.None;
      }
      var left := invitations.Keys;
      while left != {}
        invariant left <= invitations.Keys
        invariant forall i: nat :: i in invitations && i !in left ==> !Opens(State(), token.value, i)
      {
        var i :| i in left;
        if invitations[i].token == token.value {
          return Some(i);
        }
        left := left - {i};
      }
      found := Option.None;
    }

    /** `responsible_guardianship`: a link by which the account is responsible. */
    method FindResponsible(u: UserId) returns (l: Option<nat>)
      ensures l.Some? <==> IsResponsible(State(), u)
      ensures l.Some? ==> HoldsBy(State(), u, l.value)
    {
      var left := links.Keys;
      while left != {}
        invariant left <= links.Keys
        invariant forall m :: m in links && m !in left ==> !HoldsBy(State(), u, m)
      {
        var m :| m in left;
        if links[m].guardian == u && Responsible(links[m].relation) {
          return Some(m);
        }
        left := left - {m};
      }
      l := Option.None;
    }

    method HasLink(u: UserId) returns (found: bool)
      ensures found <==> IsGuardian(State(), u)
    {
      var left := links.Keys;
      while left != {}
        invariant left <= links.Keys
        invariant forall m :: m in links && m !in left ==> links[m].guardian != u
      {
        var m :| m in left;
        if links[m].guardian == u {
          return true;
        }
        left := left - {m};
      }
      found := false;
    }

    method HasWaiting(email: Address) returns (found: bool)
      ensures found <==> Waiting(State(), email)
    {
      var left := invitations.Keys;
      while left != {}
        invariant left <= invitations.Keys
        invariant forall i :: i in invitations && i !in left ==>
                    !(invitations[i].email == email && IsPending(invitations[i], now))
      {
        var i :| i in left;
        if invitations[i].email == email && IsPending(invitations[i], now) {
          return true;
        }
        left := left - {i};
      }
      found := false;
    }

    method Resend(i: nat, by': UserId) returns (error: Option<Error>)
      requires i in invitations
      modifies this`invitations, this`nextToken, this`throttle
      ensures match Guardians.Resend(old(State()), i, by') {
                case Ok(after) => error == None && State() == after
                case Err(e) => error == Some(e) && State() == old(State())
              }
    {
      var sender := FindResponsible(by');
      if sender == Option.None {
        return Some(NotResponsible);
      }
      if invitations[i].acceptedAt.Some? || invitations[i].withdrawnAt.Some? {
        return Some(AlreadyOver);
      }
      var waits := Wait(by');
      if waits {
        return Some(TooSoon);
      }
      var row := NewToken(invitations[i]);
      invitations := invitations[i := row.(expiresAt := now + VALID_DAYS * DAY)];
      error := Option.None;
    }

    method Withdraw(i: nat, by': UserId) returns (error: Option<Error>)
      requires i in invitations
      modifies this`invitations
      ensures match Guardians.Withdraw(old(State()), i, by') {
                case Ok(after) => error == None && State() == after
                case Err(e) => error == Some(e) && State() == old(State())
              }
    {
      var sender := FindResponsible(by');
      if sender == Option.None {
        return Some(NotResponsible);
      }
      if !IsPending(invitations[i], now) {
        return Some(NotWaiting);
      }
      invitations := invitations[i := invitations[i].(withdrawnAt := Some(now))];
      error := Option.None;
    }

    method Accept(i: nat, u: UserId) returns (error: Option<Error>)
      requires i in invitations && u in accounts
      modifies this`links, this`nextLink, this`invitations
      ensures match Guardians.Accept(old(State()), i, u) {
                case Ok(after) => error == None && State() == after
                case Err(e) => error == Some(e) && State() == old(State())
              }
    {
      var inv := invitations[i];
      var sender := FindResponsible(inv.invitedBy);
      if !IsPending(inv, now) || sender == Option.None {
        return Some(NotValid);
      }
      var guardian := HasLink(u);
      if !accounts[u].active || accounts[u].kind != Adult || accounts[u].email != inv.email || guardian {
        return Some(AnotherAddress);
      }
      links := links[nextLink := Link(u, inv.relation)];
      nextLink := nextLink + 1;
      invitations := invitations[i := inv.(acceptedAt := Some(now), acceptedBy := Some(u))];
      error := Option.None;
    }

    method Remove(l: nat, by': UserId) returns (error: Option<Error>)
      requires l in links
      modifies this`links
      ensures match Guardians.Remove(old(State()), l, by') {
                case Ok(after) => error == None && State() == after
                case Err(e) => error == Some(e) && State() == old(State())
              }
    {
      if links[l].guardian != by' {
        var remover := FindResponsible(by');
        if remover == Option.None {
          return Some(NotResponsible);
        }
      }
      if Responsible(links[l].relation) {
        var other := OtherResponsible(l);
        if !other {
          return Some(OnlyResponsible);
        }
      }
      links := links - {l};
      error := Option.None;
    }

    method OtherResponsible(l: nat) returns (found: bool)
      ensures found <==> exists m :: m in links && m != l && Responsible(links[m].relation)
    {
      var left := links.Keys - {l};
      while left != {}
        invariant left <= links.Keys - {l}
        invariant forall m :: m in links && m != l && m !in left ==> !Responsible(links[m].relation)
      {
        var m :| m in left;
        if Responsible(links[m].relation) {
          return true;
        }
        left := left - {m};
      }
      found := false;
    }

    /** The retention job; returns how many invitations it deleted. */
    method RemoveOld() returns (removed: nat)
      modifies this`invitations
      ensures State() == Guardians.RemoveOld(old(State()))
      ensures |invitations| + removed == |old(invitations)|
    {
      var cutoff := now - KEEP_DAYS * DAY;
      var left := invitations.Keys;
      removed := 0;
      while left != {}
        invariant left <= old(invitations).Keys
        invariant forall i :: i in invitations ==> i in old(invitations) && invitations[i] == old(invitations)[i]
        invariant forall i :: i in old(invitations) ==>
                    (i in invitations <==> i in left || !IsOld(old(invitations)[i], cutoff))
        invariant |invitations| + removed == |old(invitations)|
      {
        var i :| i in left;
        if IsOld(invitations[i], cutoff) {
          OneFewer(invitations, i);
          invitations := invitations - {i};
          removed := removed + 1;
        }
        left := left - {i};
      }
      assert invitations == Guardians.RemoveOld(old(State())).invitations;
    }
  }

  lemma OneFewer(rows: map<nat, Invitation>, i: nat)
    requires i in rows
    ensures |rows - {i}| + 1 == |rows|
  {
  }
}

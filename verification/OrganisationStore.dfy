/** The services of Organisation as they work: rows changed one at a time, in
    loops, with a sync after every role row. Each method's outcome is the operation
    on values of the same name. */
module OrganisationStore {
  import opened Basics
  import opened Organisation

  /** A role asked for by name, known or not. */
  datatype Wish = Known(role: Role) | Unknown(name: string)

  predicate Strange(wishes: set<Wish>) {
    exists w :: w in wishes && w.Unknown?
  }

  function Wanted(wishes: set<Wish>): set<Role> {
    set w | w in wishes && w.Known? :: w.role
  }

  lemma StrangeExactly(wishes: set<Wish>)
    ensures Strange(wishes) <==> exists name :: Unknown(name) in wishes
    ensures forall role :: role in Wanted(wishes) <==> Known(role) in wishes
  {
    if w :| w in wishes && w.Unknown? { assert Unknown(w.name) in wishes; }
    forall role ensures role in Wanted(wishes) <==> Known(role) in wishes {
      if role in Wanted(wishes) {
        var w :| w in wishes && w.Known? && w.role == role;
        assert w == Known(role);
      }
    }
  }

  class Store {
    var now: int
    var users: map<UserId, User>
    var grants: seq<Grant>

    constructor (now: int, users: map<UserId, User>)
      ensures State() == Organisation.State.State(now, users, [])
    {
      this.now, this.users, this.grants := now, users, [];
    }

    function State(): Organisation.State
      reads this
    {
      Organisation.State.State(now, users, grants)
    }

    method SyncStaff(u: UserId)
      requires u in users
      modifies this`users
      ensures State() == Organisation.SyncStaff(old(State()), u)
    {
      var needs := users[u].superuser || FirstOpen(grants, u, now, 0) < |grants|;
      if users[u].staff != needs {
        users := users[u := users[u].(staff := needs)];
      } else {
        assert users == users[u := users[u].(staff := needs)];
      }
    }

    /** Ok(grant number) or why access cannot be given. */
    method RequestAccess(u: UserId, reasonGiven: bool) returns (error: Option<Error>)
      requires u in users
      modifies this`users, this`grants
      ensures var r := Organisation.RequestAccess(old(State()), u, reasonGiven);
              match r {
                case Ok(after) => error == None && State() == after
                case Err(e) => error == Some(e) && State() == old(State())
              }
    {
      if !MayAsk(users[u]) {
        return Some(NoRole);
      }
      if !reasonGiven {
        return Some(NoReason);
      }
      if FirstOpen(grants, u, now, 0) < |grants| {
        return Some(AlreadyOpen);
      }
      grants := grants + [Grant(u, now, now + ACCESS_SECONDS, Option.None, Option.None, Option.None)];
      SyncStaff(u);
      error := Option.None;
    }

    method End(i: nat, endedBy: Option<UserId>, reason: EndReason) returns (error: Option<Error>)
      requires i < |grants| && grants[i].account in users
      modifies this`users, this`grants
      ensures var r := Organisation.End(old(State()), i, endedBy, reason);
              match r {
                case Ok(after) => error == None && State() == after
                case Err(e) => error == Some(e) && State() == old(State())
              }
    {
      if !IsOpen(grants[i], now) && reason != Expired {
        return Some(AlreadyEnded);
      }
      grants := grants[i := Closed(grants[i], now, endedBy, reason)];
      SyncStaff(grants[i].account);
      error := Option.None;
    }

    method EndFor(u: UserId, reason: EndReason)
      requires u in users
      modifies this`users, this`grants
      ensures State() == Organisation.EndFor(old(State()), u, reason)
    {
      var i := FirstOpen(grants, u, now, 0);
      if i < |grants| {
        var error := End(i, Option.None, reason);
      }
    }

    method SyncAccess(u: UserId)
      requires u in users
      modifies this`users, this`grants
      ensures State() == Organisation.SyncAccess(old(State()), u)
    {
      users := users[u := users[u].(groups := users[u].roles)];
      if users[u].roles == {} {
        EndFor(u, RoleRemoved);
      }
      SyncStaff(u);
    }

    /** Creates or deletes one role row; the signal syncs the account. */
    method AddRole(u: UserId, role: Role)
      requires u in users
      modifies this`users, this`grants
      ensures State() == Grants(old(State()), u, role)
    {
      users := users[u := users[u].(roles := users[u].roles + {role})];
      SyncAccess(u);
    }

    method RemoveRole(u: UserId, role: Role)
      requires u in users
      modifies this`users, this`grants
      ensures State() == Revokes(old(State()), u, role)
    {
      users := users[u := users[u].(roles := users[u].roles - {role})];
      SyncAccess(u);
    }

    /** Adds the roles one row at a time. The syncs in between end no access,
        because the account holds a role at each of them. */
    method AddRoles(u: UserId, added: set<Role>)
      requires u in users && added !! users[u].roles
      modifies this`users, this`grants
      ensures State() == RolesSet(old(State()), u, old(users[u].roles) + added)
    {
      ghost var was := State();
      var left := added;
      while left != {}
        invariant left <= added && u in users
        invariant State() == RolesSet(was, u, was.users[u].roles + (added - left))
      {
        var role :| role in left;
        ghost var before := was.users[u].roles + (added - left);
        AddAfterSet(was, u, before, role);
        assert before + {role} == was.users[u].roles + (added - (left - {role}));
        AddRole(u, role);
        left := left - {role};
      }
      assert added - left == added;
    }

    /** Removes the roles one row at a time; only the removal of the last role an
        account holds ends its access. */
    method RemoveRoles(u: UserId, removed: set<Role>)
      requires u in users && removed <= users[u].roles
      modifies this`users, this`grants
      ensures State() == RolesSet(old(State()), u, old(users[u].roles) - removed)
    {
      ghost var was := State();
      var left := removed;
      while left != {}
        invariant left <= removed && u in users
        invariant State() == RolesSet(was, u, was.users[u].roles - (removed - left))
      {
        var role :| role in left;
        ghost var before := was.users[u].roles - (removed - left);
        RemoveAfterSet(was, u, before, role);
        assert before - {role} == was.users[u].roles - (removed - (left - {role}));
        RemoveRole(u, role);
        left := left - {role};
      }
      assert was.users[u].roles - (removed - left) == was.users[u].roles - removed;
    }

    /** Additions first, then removals: the outcome is that of one change. `wishes` are
        the roles asked for by name; returns what was added and what removed. */
    method SetRoles(u: UserId, wishes: set<Wish>, by': UserId) returns (error: Option<Error>, added: set<Role>, removed: set<Role>)
      requires u in users
      modifies this`users, this`grants
      ensures error == if Strange(wishes) then Some(UnknownRole) else RolesProblem(old(State()), u, Wanted(wishes), by')
      ensures State() == if error == None then RolesSet(old(State()), u, Wanted(wishes)) else old(State())
      ensures error == Some(UnknownRole) <==> exists name :: Unknown(name) in wishes
      ensures error == None ==> u in users && forall role :: role in users[u].roles <==> Known(role) in wishes
      ensures error == None ==> u != by' && users[u].adult && users[u].active
      ensures error != None ==> added == removed == {}
      ensures error == None ==> old(users[u].roles) !! added && removed <= old(users[u].roles)
      ensures error == None ==> old(users[u].roles) + added - removed == Wanted(wishes)
    {
      added, removed := {}, {};
      StrangeExactly(wishes);
      if Strange(wishes) {
        return Some(UnknownRole), {}, {};
      }
      var wanted := Wanted(wishes);
      error := RolesProblem(State(), u, wanted, by');
      if error != Option.None {
        return;
      }
      var current := users[u].roles;
      added, removed := wanted - current, current - wanted;
      ghost var was := State();
      Change(u, added, removed);
      assert current + added - removed == wanted;
      SetRolesExactly(was, u, wanted, by');
      RolesSetRoles(was, u, wanted);
      KeepsWho(was, u, wanted);
      ActiveKept(was, u, wanted);
    }

    /** The two loops. */
    method Change(u: UserId, added: set<Role>, removed: set<Role>)
      requires u in users && added !! users[u].roles && removed <= users[u].roles
      modifies this`users, this`grants
      ensures State() == RolesSet(old(State()), u, old(users[u].roles) + added - removed)
    {
      ghost var was := State();
      ghost var current := users[u].roles;
      AddRoles(u, added);
      RolesSetRoles(was, u, current + added);
      RemoveRoles(u, removed);
      ghost var wanted := current + added - removed;
      assert current + added == current + wanted;
      RolesSetTwice(was, u, wanted);
    }

    /** accounts.invitations.accept: the roles of the invitation that the account
        does not hold yet. */
    method AcceptRoles(u: UserId, roles: set<Role>)
      requires u in users
      modifies this`users, this`grants
      ensures State() == RolesSet(old(State()), u, old(users[u].roles) + roles)
    {
      assert users[u].roles + (roles - users[u].roles) == users[u].roles + roles;
      AddRoles(u, roles - users[u].roles);
    }
  }

  lemma RolesSetRoles(s: State, u: UserId, wanted: set<Role>)
    requires u in s.users
    ensures u in RolesSet(s, u, wanted).users && RolesSet(s, u, wanted).users[u].roles == wanted
  {
  }

  /** With a role wanted, only this account's row changes. */
  lemma RolesSetIsLocal(s: State, u: UserId, wanted: set<Role>)
    requires u in s.users && wanted != {} && s.users[u].roles != wanted
    ensures RolesSet(s, u, wanted) ==
            s.(users := s.users[u := s.users[u].(roles := wanted, groups := wanted, staff := NeedsStaff(s, u))])
  {
  }

  lemma AddAfterSet(s: State, u: UserId, held: set<Role>, role: Role)
    requires u in s.users && role !in held && s.users[u].roles <= held
    ensures Grants(RolesSet(s, u, held), u, role) == RolesSet(s, u, held + {role})
  {
    RolesSetIsLocal(s, u, held + {role});
    if s.users[u].roles != held {
      RolesSetIsLocal(s, u, held);
    }
  }

  function GrantsEnded(s: State, u: UserId): seq<Grant> {
    var i := FirstOpen(s.grants, u, s.now, 0);
    if i == |s.grants| then s.grants else s.grants[i := Closed(s.grants[i], s.now, None, RoleRemoved)]
  }

  /** A sync of an account without roles. */
  lemma SyncWithoutRoles(s: State, u: UserId)
    requires u in s.users && s.users[u].roles == {}
    ensures var ended := GrantsEnded(s, u);
            SyncAccess(s, u) == s.(
              grants := ended,
              users := s.users[u := s.users[u].(groups := {}, staff := s.users[u].superuser || HasOpen(ended, u, s.now))])
  {
  }

  /** The grants after a sync depend on no account's row. */
  lemma SameGrantsEnded(a: State, b: State, u: UserId)
    requires a.grants == b.grants && a.now == b.now
    ensures GrantsEnded(a, u) == GrantsEnded(b, u)
  {
  }

  function RoleLess(s: State, u: UserId): State
    requires u in s.users
  {
    s.(users := s.users[u := s.users[u].(roles := {})])
  }

  /** Taking the last role away: what the account's row said besides does not matter. */
  lemma LastRoleGone(s: State, m: State, u: UserId, role: Role)
    requires u in s.users && u in m.users && m.users[u].roles == {role} && s.users[u].roles != {}
    requires m == s.(users := s.users[u := m.users[u]])
    requires m.users[u] == s.users[u].(roles := {role}, groups := m.users[u].groups, staff := m.users[u].staff)
    ensures Revokes(m, u, role) == RolesSet(s, u, {})
  {
    var a, b := RoleLess(s, u), RoleLess(m, u);
    assert m.users[u].roles - {role} == {};
    assert Revokes(m, u, role) == SyncAccess(b, u);
    SameButFlags(a, b, u);
  }

  lemma SameButFlags(a: State, b: State, u: UserId)
    requires u in a.users && u in b.users && a.users[u].roles == {}
    requires b == a.(users := a.users[u := b.users[u]])
    requires b.users[u] == a.users[u].(groups := b.users[u].groups, staff := b.users[u].staff)
    ensures SyncAccess(b, u) == SyncAccess(a, u)
  {
    SyncWithoutRoles(a, u);
    SyncWithoutRoles(b, u);
    SameGrantsEnded(a, b, u);
    var row := a.users[u].(groups := {}, staff := a.users[u].superuser || HasOpen(GrantsEnded(a, u), u, a.now));
    assert b.users[u := row] == a.users[u := row];
  }

  lemma RemoveAfterSet(s: State, u: UserId, held: set<Role>, role: Role)
    requires u in s.users && role in held && held <= s.users[u].roles
    ensures Revokes(RolesSet(s, u, held), u, role) == RolesSet(s, u, held - {role})
  {
    if s.users[u].roles != held {
      RolesSetIsLocal(s, u, held);
    } else {
      assert s.users == s.users[u := s.users[u]];
    }
    if held - {role} == {} {
      assert held == {role};
      LastRoleGone(s, RolesSet(s, u, held), u, role);
    } else {
      RolesSetIsLocal(s, u, held - {role});
    }
  }

  lemma RolesSetTwice(s: State, u: UserId, wanted: set<Role>)
    requires u in s.users
    ensures RolesSet(RolesSet(s, u, s.users[u].roles + wanted), u, wanted) == RolesSet(s, u, wanted)
  {
    var current := s.users[u].roles;
    if wanted == {} {
      assert current + wanted == current;
    } else {
      if current + wanted != current { RolesSetIsLocal(s, u, current + wanted); }
      if wanted != current { RolesSetIsLocal(s, u, wanted); }
      if current + wanted == current {
        assert RolesSet(s, u, current + wanted) == s;
      } else if wanted != current + wanted {
        RolesSetIsLocal(RolesSet(s, u, current + wanted), u, wanted);
      }
    }
  }

  /** The order matters: taking the old role away first ends the access of somebody
      who only changes roles, adding the new one first does not. */
  lemma RemovingFirstEndsAccess()
    ensures exists s: State, u ::
              && Inv(s) && u in s.users && s.users[u].roles == {Board} && HasOpen(s.grants, u, s.now)
              && !HasOpen(Grants(Revokes(s, u, Board), u, Admin).grants, u, s.now)
              && HasOpen(Revokes(Grants(s, u, Admin), u, Board).grants, u, s.now)
  {
    var g := Grant.Grant(0, 0, ACCESS_SECONDS, None, None, None);
    var s := Organisation.State.State(0, map[0 := User(true, true, false, true, {Board}, {Board})], [g]);
    assert IsOpen(s.grants[0], 0) && GrantOk(g, 0);
    assert UserOk(s, 0);
    var gone := s.(users := s.users[0 := s.users[0].(roles := {})]);
    assert s.users[0].roles - {Board} == {};
    SyncWithoutRoles(gone, 0);
    assert GrantsEnded(gone, 0) == [Closed(g, 0, None, RoleRemoved)];
    assert Revokes(Grants(s, 0, Admin), 0, Board).grants == s.grants;
    assert Inv(s);
  }

  // ---------------------------------------------------------- the closing job

  /** The state after the first `k` grants went through the closing loop. */
  ghost predicate ClosedTo(s: State, k: nat, t: State)
    requires k <= |s.grants|
  {
    && t.now == s.now && |t.grants| == |s.grants| && t.users.Keys == s.users.Keys
    && (forall i :: 0 <= i < k ==> t.grants[i] == CloseGrant(s.grants[i], s.now))
    && (forall i :: k <= i < |s.grants| ==> t.grants[i] == s.grants[i])
    && forall u :: u in s.users ==>
         t.users[u] == if DueBefore(s, k, u) then s.users[u].(staff := NeedsStaff(s, u)) else s.users[u]
  }

  ghost predicate DueBefore(s: State, k: nat, u: UserId)
    requires k <= |s.grants|
  {
    exists i :: 0 <= i < k && s.grants[i].account == u && Due(s.grants[i], s.now)
  }

  lemma DueBeforeNext(s: State, k: nat, u: UserId)
    requires k < |s.grants|
    ensures DueBefore(s, k + 1, u) <==> DueBefore(s, k, u) || (s.grants[k].account == u && Due(s.grants[k], s.now))
  {
  }

  /** Closing what is overdue changes nobody's open access. */
  lemma ClosedToKeepsOpen(s: State, k: nat, t: State, u: UserId)
    requires k <= |s.grants| && ClosedTo(s, k, t)
    ensures HasOpen(t.grants, u, t.now) == HasOpen(s.grants, u, s.now)
  {
  }

  lemma ClosedToNext(s: State, k: nat, t: State, n: State)
    requires k < |s.grants| && ClosedTo(s, k, t) && s.grants[k].account in s.users
    requires n == if Due(s.grants[k], s.now) then Organisation.End(t, k, None, Expired).state else t
    ensures ClosedTo(s, k + 1, n)
  {
    var u := s.grants[k].account;
    forall v ensures DueBefore(s, k + 1, v) <==> DueBefore(s, k, v) || (u == v && Due(s.grants[k], s.now)) {
      DueBeforeNext(s, k, v);
    }
    if Due(s.grants[k], s.now) {
      ClosedToKeepsOpen(s, k, t, u);
      var closed := t.(grants := t.grants[k := Closed(t.grants[k], t.now, None, Expired)]);
      OverdueIsNotOpen(t, k, u);
      assert n == Organisation.SyncStaff(closed, u);
    }
  }

  lemma OverdueIsNotOpen(t: State, k: nat, u: UserId)
    requires k < |t.grants| && Due(t.grants[k], t.now)
    ensures HasOpen(t.grants[k := Closed(t.grants[k], t.now, None, Expired)], u, t.now) == HasOpen(t.grants, u, t.now)
  {
    var after := t.grants[k := Closed(t.grants[k], t.now, None, Expired)];
    if HasOpen(t.grants, u, t.now) {
      var i :| 0 <= i < |t.grants| && t.grants[i].account == u && IsOpen(t.grants[i], t.now);
      assert after[i] == t.grants[i];
    }
    if HasOpen(after, u, t.now) {
      var i :| 0 <= i < |after| && after[i].account == u && IsOpen(after[i], t.now);
      assert after[i] == t.grants[i];
    }
  }

  function DueCount(grants: seq<Grant>, now: int, k: nat): nat
    requires k <= |grants|
  {
    |set i | 0 <= i < k && Due(grants[i], now)|
  }

  lemma DueCountNext(grants: seq<Grant>, now: int, k: nat)
    requires k < |grants|
    ensures DueCount(grants, now, k + 1) == DueCount(grants, now, k) + if Due(grants[k], now) then 1 else 0
  {
    var next := set i | 0 <= i < k + 1 && Due(grants[i], now);
    var before := set i | 0 <= i < k && Due(grants[i], now);
    assert next == if Due(grants[k], now) then before + {k} else before;
  }

  /** Closes every grant whose time is up, then makes the staff flag right for
      whoever is still staff without being a superuser. */
  method CloseExpired(store: Store) returns (closed: nat)
    requires forall i :: 0 <= i < |store.grants| ==> store.grants[i].account in store.users
    modifies store`users, store`grants
    ensures store.State() == Organisation.CloseExpired(old(store.State()))
    ensures closed == DueCount(old(store.grants), store.now, |store.grants|)
  {
    ghost var s := store.State();
    closed := CloseOverdue(store);
    ghost var t := store.State();
    SyncEveryStaff(store);
    CloseExpiredIs(s, t, store.State());
  }

  method CloseIfDue(store: Store, k: nat) returns (closed: bool)
    requires k < |store.grants| && store.grants[k].account in store.users
    modifies store`users, store`grants
    ensures closed == Due(old(store.grants[k]), store.now)
    ensures store.State() == if closed then Organisation.End(old(store.State()), k, Option.None, Expired).state
                             else old(store.State())
  {
    closed := Due(store.grants[k], store.now);
    if closed {
      var error := store.End(k, Option.None, Expired);
    }
  }

  /** The first `k` grants went through the closing loop, and `closed` of them were due. */
  ghost predicate ClosedSoFar(s: State, k: nat, t: State, closed: nat) {
    k <= |s.grants| && ClosedTo(s, k, t) && closed == DueCount(s.grants, s.now, k)
  }

  /** One turn of the loop, `s` being where it started. */
  method CloseNext(store: Store, k: nat, before: nat, ghost s: State) returns (closed: nat)
    requires k < |s.grants| && s.grants[k].account in s.users && ClosedSoFar(s, k, store.State(), before)
    modifies store`users, store`grants
    ensures ClosedSoFar(s, k + 1, store.State(), closed)
  {
    ghost var t := store.State();
    assert t.grants[k] == s.grants[k];
    var done := CloseIfDue(store, k);
    closed := if done then before + 1 else before;
    DueCountNext(s.grants, s.now, k);
    ClosedToNext(s, k, t, store.State());
  }

  method CloseOverdue(store: Store) returns (closed: nat)
    requires forall i :: 0 <= i < |store.grants| ==> store.grants[i].account in store.users
    modifies store`users, store`grants
    ensures ClosedSoFar(old(store.State()), |old(store.grants)|, store.State(), closed)
  {
    ghost var s := store.State();
    closed := 0;
    var k := 0;
    NothingClosedYet(s);
    while k < |store.grants|
      invariant k <= |s.grants| == |store.grants|
      invariant ClosedSoFar(s, k, store.State(), closed)
    {
      closed := CloseNext(store, k, closed, s);
      k := k + 1;
    }
  }

  lemma NothingClosedYet(s: State)
    ensures ClosedSoFar(s, 0, s, 0)
  {
  }

  ghost predicate StaffSynced(t: State, n: State) {
    && n.now == t.now && n.grants == t.grants && n.users.Keys == t.users.Keys
    && forall u :: u in t.users ==>
         n.users[u] == if t.users[u].staff && !t.users[u].superuser then t.users[u].(staff := NeedsStaff(t, u)) else t.users[u]
  }

  method SyncEveryStaff(store: Store)
    modifies store`users
    ensures StaffSynced(old(store.State()), store.State())
  {
    ghost var t := store.State();
    var left := set u | u in store.users && store.users[u].staff && !store.users[u].superuser;
    while left != {}
      invariant store.now == t.now && store.grants == t.grants && store.users.Keys == t.users.Keys
      invariant forall u :: u in left ==> u in t.users && t.users[u].staff && !t.users[u].superuser && store.users[u] == t.users[u]
      invariant forall u :: u in t.users && u !in left ==>
                  store.users[u] == if t.users[u].staff && !t.users[u].superuser
                                    then t.users[u].(staff := NeedsStaff(t, u)) else t.users[u]
    {
      var u :| u in left;
      store.SyncStaff(u);
      left := left - {u};
    }
  }

  /** The two loops together are the closing job said at once. */
  lemma CloseExpiredIs(s: State, t: State, n: State)
    requires ClosedTo(s, |s.grants|, t) && StaffSynced(t, n)
    ensures n == Organisation.CloseExpired(s)
  {
    var c := Organisation.CloseExpired(s);
    assert n.grants == c.grants;
    forall u | u in s.users ensures n.users[u] == c.users[u] {
      ClosedToKeepsOpen(s, |s.grants|, t, u);
    }
    assert n.users == c.users;
  }
}

/** Organisation roles, their groups, time-boxed admin access and the staff flag
    (accounts/admin_access.py, accounts/organisation.py, accounts/organisation_people.py,
    accounts/invitations.py). Every operation happens at one instant of a clock that
    only moves forward; times are seconds. */
module Organisation {
  import opened Basics

  const ADMIN_ACCESS_HOURS := 12
  const ACCESS_SECONDS := ADMIN_ACCESS_HOURS * 3600

  datatype Role = Board | Admin | Reviewer

  type UserId = nat

  /** `groups` are the role groups only. */
  datatype User = User(adult: bool, active: bool, superuser: bool, staff: bool, roles: set<Role>, groups: set<Role>)

  datatype EndReason = Expired | Ended | Revoked | RoleRemoved

  datatype Grant = Grant(account: UserId, startedAt: int, expiresAt: int, endedAt: Option<int>, endedBy: Option<UserId>, reason: Option<EndReason>)

  datatype State = State(now: int, users: map<UserId, User>, grants: seq<Grant>)

  datatype Error =
    | NoRole | NoReason | AlreadyOpen | AlreadyEnded
    | UnknownRole | OwnRoles | NotActiveAdult | LastAdmin

  datatype Result = Ok(state: State) | Err(error: Error)

  // ------------------------------------------------------------- definitions

  predicate IsOpen(g: Grant, now: int) {
    g.endedAt == None && g.startedAt <= now < g.expiresAt
  }

  predicate HasOpen(grants: seq<Grant>, u: UserId, now: int) {
    exists i :: 0 <= i < |grants| && grants[i].account == u && IsOpen(grants[i], now)
  }

  /** The first open grant of the account, or the number of grants when it has none.
      `from` is where the search starts. */
  function FirstOpen(grants: seq<Grant>, u: UserId, now: int, from: nat): (i: nat)
    requires from <= |grants|
    ensures from <= i <= |grants|
    ensures i < |grants| ==> grants[i].account == u && IsOpen(grants[i], now)
    ensures i == |grants| ==> forall j :: from <= j < |grants| && grants[j].account == u ==> !IsOpen(grants[j], now)
    decreases |grants| - from
  {
    if from == |grants| then from
    else if grants[from].account == u && IsOpen(grants[from], now) then from
    else FirstOpen(grants, u, now, from + 1)
  }

  predicate NeedsStaff(s: State, u: UserId)
    requires u in s.users
  {
    s.users[u].superuser || HasOpen(s.grants, u, s.now)
  }

  predicate MayAsk(user: User) {
    user.adult && user.roles != {}
  }

  // ------------------------------------------------- the operations, on values

  function SyncStaff(s: State, u: UserId): State
    requires u in s.users
  {
    s.(users := s.users[u := s.users[u].(staff := NeedsStaff(s, u))])
  }

  function RequestAccess(s: State, u: UserId, reasonGiven: bool): Result
    requires u in s.users
  {
    if !MayAsk(s.users[u]) then Err(NoRole)
    else if !reasonGiven then Err(NoReason)
    else if HasOpen(s.grants, u, s.now) then Err(AlreadyOpen)
    else Ok(SyncStaff(s.(grants := s.grants + [Grant(u, s.now, s.now + ACCESS_SECONDS, None, None, None)]), u))
  }

  function Closed(g: Grant, now: int, endedBy: Option<UserId>, reason: EndReason): Grant {
    g.(endedAt := Some(if now < g.expiresAt then now else g.expiresAt), endedBy := endedBy, reason := Some(reason))
  }

  function End(s: State, i: nat, endedBy: Option<UserId>, reason: EndReason): Result
    requires i < |s.grants| && s.grants[i].account in s.users
  {
    if !IsOpen(s.grants[i], s.now) && reason != Expired then Err(AlreadyEnded)
    else Ok(SyncStaff(s.(grants := s.grants[i := Closed(s.grants[i], s.now, endedBy, reason)]), s.grants[i].account))
  }

  /** Ends the first open grant, if there is one. */
  function EndFor(s: State, u: UserId, reason: EndReason): State
    requires u in s.users
  {
    var i := FirstOpen(s.grants, u, s.now, 0);
    if i == |s.grants| then s else End(s, i, None, reason).state
  }

  function Grouped(s: State, u: UserId): State
    requires u in s.users
  {
    s.(users := s.users[u := s.users[u].(groups := s.users[u].roles)])
  }

  /** What the role signal does: groups follow roles, and without roles any access
      still open ends. */
  function SyncAccess(s: State, u: UserId): State
    requires u in s.users
  {
    SyncStaff(if s.users[u].roles == {} then EndFor(Grouped(s, u), u, RoleRemoved) else Grouped(s, u), u)
  }

  function Grants(s: State, u: UserId, role: Role): State
    requires u in s.users
  {
    SyncAccess(s.(users := s.users[u := s.users[u].(roles := s.users[u].roles + {role})]), u)
  }

  function Revokes(s: State, u: UserId, role: Role): State
    requires u in s.users
  {
    SyncAccess(s.(users := s.users[u := s.users[u].(roles := s.users[u].roles - {role})]), u)
  }

  /** The closing job, said at once: every grant whose time is up is closed at its
      expiry, and the staff flag is made right for its holder and for every staff
      account that is no superuser. */
  function CloseGrant(g: Grant, now: int): Grant {
    if g.endedAt == None && g.expiresAt <= now then Closed(g, now, None, Expired) else g
  }

  function CloseGrants(grants: seq<Grant>, now: int): (closed: seq<Grant>)
    ensures |closed| == |grants|
    ensures forall i :: 0 <= i < |grants| ==> closed[i] == CloseGrant(grants[i], now)
  {
    seq(|grants|, i requires 0 <= i < |grants| => CloseGrant(grants[i], now))
  }

  predicate Due(g: Grant, now: int) {
    g.endedAt == None && g.expiresAt <= now
  }

  predicate IsSynced(s: State, u: UserId)
    requires u in s.users
  {
    || (s.users[u].staff && !s.users[u].superuser)
    || exists i :: 0 <= i < |s.grants| && s.grants[i].account == u && Due(s.grants[i], s.now)
  }

  function CloseExpired(s: State): State {
    s.(grants := CloseGrants(s.grants, s.now),
       users := map u | u in s.users ::
         if IsSynced(s, u) then s.users[u].(staff := NeedsStaff(s, u)) else s.users[u])
  }

  predicate ActiveAdmin(user: User) {
    user.active && Admin in user.roles
  }

  predicate AnotherAdmin(s: State, u: UserId) {
    exists v :: v in s.users && v != u && ActiveAdmin(s.users[v])
  }

  /** Why `by` cannot give `u` exactly the roles `wanted`. */
  function RolesProblem(s: State, u: UserId, wanted: set<Role>, by': UserId): Option<Error>
    requires u in s.users
  {
    if u == by' then Some(OwnRoles)
    else if !s.users[u].adult || !s.users[u].active then Some(NotActiveAdult)
    else if Admin in s.users[u].roles - wanted && !AnotherAdmin(s, u) then Some(LastAdmin)
    else None
  }

  // --------------------------------------------- what every operation keeps

  /** When a grant's access stopped or will stop. */
  function Until(g: Grant): int {
    if g.endedAt.Some? then g.endedAt.value else g.expiresAt
  }

  ghost predicate GrantOk(g: Grant, now: int) {
    && g.startedAt <= now
    && g.startedAt <= Until(g) <= g.expiresAt == g.startedAt + ACCESS_SECONDS
    && (g.endedAt.Some? ==> g.endedAt.value <= now)
  }

  /** Two access intervals that do not overlap: one stops before the other starts. */
  ghost predicate Apart(g: Grant, h: Grant) {
    Until(g) <= h.startedAt || Until(h) <= g.startedAt
  }

  ghost predicate GrantsOk(s: State) {
    && (forall i :: 0 <= i < |s.grants| ==> s.grants[i].account in s.users && GrantOk(s.grants[i], s.now))
    && (forall i, j :: 0 <= i < j < |s.grants| && s.grants[i].account == s.grants[j].account ==>
         Apart(s.grants[i], s.grants[j]))
  }

  ghost predicate UserOk(s: State, u: UserId)
    requires u in s.users
  {
    && s.users[u].groups == s.users[u].roles
    && (HasOpen(s.grants, u, s.now) ==> s.users[u].roles != {} && s.users[u].staff)
  }

  ghost predicate Inv(s: State) {
    && GrantsOk(s)
    && forall u :: u in s.users ==> UserOk(s, u)
  }

  /** One account has at most one open grant, so the first is all there is. */
  lemma OneOpen(s: State, i: nat, j: nat)
    requires GrantsOk(s) && i < |s.grants| && j < |s.grants|
    requires s.grants[i].account == s.grants[j].account
    requires IsOpen(s.grants[i], s.now) && IsOpen(s.grants[j], s.now)
    ensures i == j
  {
  }

  lemma OpenAt(grants: seq<Grant>, u: UserId, now: int)
    ensures HasOpen(grants, u, now) <==> FirstOpen(grants, u, now, 0) < |grants|
  {
  }

  /** Closing grant `i` of account `u`: nobody else's access changes. */
  lemma OthersKeep(grants: seq<Grant>, i: nat, g: Grant, v: UserId, now: int)
    requires i < |grants| && g.account == grants[i].account != v
    ensures HasOpen(grants[i := g], v, now) == HasOpen(grants, v, now)
  {
    var after := grants[i := g];
    if HasOpen(grants, v, now) {
      var j :| 0 <= j < |grants| && grants[j].account == v && IsOpen(grants[j], now);
      assert after[j] == grants[j];
    }
    if HasOpen(after, v, now) {
      var j :| 0 <= j < |after| && after[j].account == v && IsOpen(after[j], now);
      assert after[j] == grants[j];
    }
  }

  ghost predicate EndsOne(grants: seq<Grant>, i: nat, u: UserId, now: int, reason: EndReason, after: seq<Grant>) {
    && i < |grants| && grants[i].account == u && IsOpen(grants[i], now)
    && after == grants[i := grants[i].(endedAt := Some(now), endedBy := None, reason := Some(reason))]
  }

  /** After `end_for` the account has no open access, and what was open ended now. */
  lemma EndForSpec(s: State, u: UserId, reason: EndReason)
    requires GrantsOk(s) && u in s.users
    ensures var t := EndFor(s, u, reason);
            && GrantsOk(t) && t.now == s.now && t.users.Keys == s.users.Keys
            && !HasOpen(t.grants, u, t.now)
            && (forall v :: v in s.users && v != u ==>
                 t.users[v] == s.users[v] && HasOpen(t.grants, v, t.now) == HasOpen(s.grants, v, s.now))
            && t.users[u] == s.users[u].(staff := t.users[u].staff)
            && (!HasOpen(s.grants, u, s.now) ==> t == s)
            && (HasOpen(s.grants, u, s.now) ==> exists i :: EndsOne(s.grants, i, u, s.now, reason, t.grants))
  {
    var i := FirstOpen(s.grants, u, s.now, 0);
    var t := EndFor(s, u, reason);
    OpenAt(s.grants, u, s.now);
    if i < |s.grants| {
      var g := Closed(s.grants[i], s.now, None, reason);
      assert t.grants == s.grants[i := g];
      assert EndsOne(s.grants, i, u, s.now, reason, t.grants);
      if HasOpen(t.grants, u, t.now) {
        var j :| 0 <= j < |t.grants| && t.grants[j].account == u && IsOpen(t.grants[j], t.now);
        OneOpen(s, i, j);
      }
      forall v | v in s.users && v != u ensures HasOpen(t.grants, v, t.now) == HasOpen(s.grants, v, s.now) {
        OthersKeep(s.grants, i, g, v, s.now);
      }
      ClosingKeepsApart(s, i, g);
    }
  }

  lemma ClosingKeepsApart(s: State, i: nat, g: Grant)
    requires GrantsOk(s) && i < |s.grants|
    requires g.account == s.grants[i].account && g.startedAt == s.grants[i].startedAt && g.expiresAt == s.grants[i].expiresAt
    requires GrantOk(g, s.now) && Until(g) <= Until(s.grants[i])
    ensures GrantsOk(s.(grants := s.grants[i := g]))
  {
  }

  /** Everything about other accounts is as it was. */
  ghost predicate OthersSame(s: State, t: State, u: UserId) {
    && t.now == s.now && t.users.Keys == s.users.Keys
    && forall v :: v in s.users && v != u ==>
         t.users[v] == s.users[v] && HasOpen(t.grants, v, t.now) == HasOpen(s.grants, v, s.now)
  }

  /** Everything is in order but this account's staff flag. */
  ghost predicate OrderedButStaff(s: State, u: UserId) {
    && GrantsOk(s) && u in s.users && s.users[u].groups == s.users[u].roles
    && (HasOpen(s.grants, u, s.now) ==> s.users[u].roles != {})
    && forall v :: v in s.users && v != u ==> UserOk(s, v)
  }

  lemma SyncStaffSpec(s: State, u: UserId)
    requires OrderedButStaff(s, u)
    ensures var t := SyncStaff(s, u);
            && Inv(t) && OthersSame(s, t, u) && t.grants == s.grants && t.users[u].roles == s.users[u].roles
            && (t.users[u].staff <==> t.users[u].superuser || HasOpen(t.grants, u, t.now))
  {
    var t := SyncStaff(s, u);
    forall v | v in t.users && v != u ensures UserOk(t, v) {
      assert UserOk(s, v);
    }
  }

  lemma EndedIsOrdered(s: State, u: UserId)
    requires GrantsOk(s) && u in s.users && s.users[u].groups == s.users[u].roles
    requires forall v :: v in s.users && v != u ==> UserOk(s, v)
    ensures var t := EndFor(s, u, RoleRemoved);
            OrderedButStaff(t, u) && OthersSame(s, t, u) && t.users[u].roles == s.users[u].roles && !HasOpen(t.grants, u, t.now)
  {
    EndForSpec(s, u, RoleRemoved);
    var t := EndFor(s, u, RoleRemoved);
    forall v | v in t.users && v != u ensures UserOk(t, v) {
      assert UserOk(s, v);
    }
  }

  lemma GroupedIsNear(s: State, u: UserId)
    requires GrantsOk(s) && u in s.users
    requires forall v :: v in s.users && v != u ==> UserOk(s, v)
    ensures var g := Grouped(s, u);
            && GrantsOk(g) && OthersSame(s, g, u) && g.users[u].roles == s.users[u].roles == g.users[u].groups
            && g.grants == s.grants && g.now == s.now
            && forall v :: v in g.users && v != u ==> UserOk(g, v)
  {
  }

  /** The role signal puts one account right whatever state its flags were in, and
      ends its access exactly when it holds no role any more. */
  lemma SyncAccessSpec(s: State, u: UserId)
    requires GrantsOk(s) && u in s.users
    requires forall v :: v in s.users && v != u ==> UserOk(s, v)
    ensures var t := SyncAccess(s, u);
            && Inv(t) && OthersSame(s, t, u)
            && t.users[u].roles == s.users[u].roles
            && (s.users[u].roles != {} ==> t.grants == s.grants)
            && (s.users[u].roles == {} ==> !HasOpen(t.grants, u, t.now))
            && (t.users[u].staff <==> t.users[u].superuser || HasOpen(t.grants, u, t.now))
  {
    GroupedIsNear(s, u);
    var g := Grouped(s, u);
    if s.users[u].roles == {} {
      EndedIsOrdered(g, u);
      SyncStaffSpec(EndFor(g, u, RoleRemoved), u);
    } else {
      SyncStaffSpec(g, u);
    }
  }

  /** Giving an account exactly these roles, said at once. */
  function RolesSet(s: State, u: UserId, wanted: set<Role>): State
    requires u in s.users
  {
    if s.users[u].roles == wanted then s
    else SyncAccess(s.(users := s.users[u := s.users[u].(roles := wanted)]), u)
  }

  /** The account ends with exactly the wanted roles and their groups; its open
      access ends exactly when no role is wanted; nobody else is touched. */
  lemma RolesSetSpec(s: State, u: UserId, wanted: set<Role>)
    requires Inv(s) && u in s.users
    ensures var t := RolesSet(s, u, wanted);
            && Inv(t) && OthersSame(s, t, u)
            && t.users[u].roles == wanted == t.users[u].groups
            && (s.users[u].roles == wanted ==> t == s)
            && (wanted != {} ==> t.grants == s.grants)
            && (HasOpen(t.grants, u, t.now) <==> HasOpen(s.grants, u, s.now) && wanted != {})
  {
    assert UserOk(s, u);
    if s.users[u].roles != wanted {
      var changed := s.(users := s.users[u := s.users[u].(roles := wanted)]);
      forall v | v in changed.users && v != u ensures UserOk(changed, v) {
        assert UserOk(s, v);
      }
      SyncAccessSpec(changed, u);
    }
  }

  ghost predicate SomeAdmin(s: State) {
    exists v :: v in s.users && ActiveAdmin(s.users[v])
  }

  /** An organisation with an active admin keeps one, whoever changes whose roles. */
  lemma AdminRemains(s: State, u: UserId, wanted: set<Role>, by': UserId)
    requires Inv(s) && u in s.users && SomeAdmin(s)
    requires RolesProblem(s, u, wanted, by') == None
    ensures SomeAdmin(RolesSet(s, u, wanted))
  {
    RolesSetSpec(s, u, wanted);
    var t := RolesSet(s, u, wanted);
    var v :| v in s.users && ActiveAdmin(s.users[v]);
    if v != u {
      assert t.users[v] == s.users[v];
    } else if Admin in wanted {
      ActiveKept(s, u, wanted);
      assert ActiveAdmin(t.users[u]);
    } else {
      var w :| w in s.users && w != u && ActiveAdmin(s.users[w]);
      assert t.users[w] == s.users[w];
    }
  }

  lemma ActiveKept(s: State, u: UserId, wanted: set<Role>)
    requires u in s.users
    ensures RolesSet(s, u, wanted).users[u].active == s.users[u].active
  {
  }

  /** The check is no stricter than that: it refuses the last active admin exactly
      when leaving the role would leave no active admin. */
  lemma LastAdminExactly(s: State, u: UserId, wanted: set<Role>, by': UserId)
    requires Inv(s) && u in s.users && u != by' && s.users[u].adult && s.users[u].active && SomeAdmin(s)
    ensures RolesProblem(s, u, wanted, by') == Some(LastAdmin) <==> !SomeAdmin(RolesSet(s, u, wanted))
  {
    RolesSetSpec(s, u, wanted);
    var t := RolesSet(s, u, wanted);
    if RolesProblem(s, u, wanted, by') == None {
      AdminRemains(s, u, wanted, by');
    } else {
      forall v | v in t.users ensures !ActiveAdmin(t.users[v]) {
        if v != u { assert t.users[v] == s.users[v]; }
      }
    }
  }

  lemma RequestSpec(s: State, u: UserId, reasonGiven: bool)
    requires Inv(s) && u in s.users && RequestAccess(s, u, reasonGiven).Ok?
    ensures var t := RequestAccess(s, u, reasonGiven).state;
            && Inv(t) && OthersSame(s, t, u)
            && t.grants == s.grants + [Grant(u, s.now, s.now + 12 * 3600, None, None, None)]
            && HasOpen(t.grants, u, t.now) && t.users[u].staff && t.users[u].roles == s.users[u].roles
  {
    var t := RequestAccess(s, u, reasonGiven).state;
    var g := t.grants[|s.grants|];
    assert IsOpen(g, t.now) && g.account == u;
    assert GrantOk(g, t.now);
    forall i | 0 <= i < |s.grants| && s.grants[i].account == u ensures Apart(s.grants[i], g) {
      assert GrantOk(s.grants[i], s.now);
    }
    forall v | v in s.users && v != u ensures HasOpen(t.grants, v, t.now) == HasOpen(s.grants, v, s.now) {
      if HasOpen(s.grants, v, s.now) {
        var i :| 0 <= i < |s.grants| && s.grants[i].account == v && IsOpen(s.grants[i], s.now);
        assert t.grants[i] == s.grants[i];
      }
    }
    forall v | v in t.users ensures UserOk(t, v) {
      assert UserOk(s, v);
    }
  }

  lemma EndSpec(s: State, i: nat, endedBy: Option<UserId>, reason: EndReason)
    requires Inv(s) && i < |s.grants| && reason != Expired && End(s, i, endedBy, reason).Ok?
    ensures var u := s.grants[i].account;
            var t := End(s, i, endedBy, reason).state;
            && Inv(t) && OthersSame(s, t, u)
            && !HasOpen(t.grants, u, t.now) && (t.users[u].staff <==> t.users[u].superuser)
            && t.grants == s.grants[i := s.grants[i].(endedAt := Some(s.now), endedBy := endedBy, reason := Some(reason))]
  {
    var u, t := s.grants[i].account, End(s, i, endedBy, reason).state;
    var g := Closed(s.grants[i], s.now, endedBy, reason);
    assert GrantOk(s.grants[i], s.now);
    ClosingKeepsApart(s, i, g);
    if HasOpen(t.grants, u, t.now) {
      var j :| 0 <= j < |t.grants| && t.grants[j].account == u && IsOpen(t.grants[j], t.now);
      OneOpen(s, i, j);
    }
    forall v | v in s.users && v != u ensures HasOpen(t.grants, v, t.now) == HasOpen(s.grants, v, s.now) {
      OthersKeep(s.grants, i, g, v, s.now);
    }
    forall v | v in t.users ensures UserOk(t, v) {
      assert UserOk(s, v);
    }
  }

  lemma CloseKeepsOpen(grants: seq<Grant>, now: int, u: UserId)
    ensures HasOpen(CloseGrants(grants, now), u, now) == HasOpen(grants, u, now)
  {
  }

  /** Right after the closing job a non-superuser is staff exactly when a grant of
      theirs is open, and exactly the grants whose time is up are closed, at their expiry. */
  lemma CloseExpiredSpec(s: State)
    requires Inv(s)
    ensures var t := CloseExpired(s);
            && Inv(t)
            && (forall u :: u in t.users && !t.users[u].superuser ==> (t.users[u].staff <==> HasOpen(t.grants, u, t.now)))
            && (forall u :: u in s.users ==> HasOpen(t.grants, u, t.now) == HasOpen(s.grants, u, s.now))
            && |t.grants| == |s.grants|
            && (forall i :: 0 <= i < |t.grants| && s.grants[i].endedAt == None && s.grants[i].expiresAt <= s.now ==>
                 t.grants[i] == s.grants[i].(endedAt := Some(s.grants[i].expiresAt), endedBy := None, reason := Some(Expired)))
            && (forall i :: 0 <= i < |t.grants| && (s.grants[i].endedAt.Some? || s.now < s.grants[i].expiresAt) ==>
                 t.grants[i] == s.grants[i])
  {
    var t := CloseExpired(s);
    forall i | 0 <= i < |t.grants| ensures Until(t.grants[i]) == Until(s.grants[i]) && GrantOk(t.grants[i], t.now) {
      assert t.grants[i] == CloseGrant(s.grants[i], s.now);
      assert GrantOk(s.grants[i], s.now);
    }
    forall i, j | 0 <= i < j < |t.grants| && t.grants[i].account == t.grants[j].account
      ensures Apart(t.grants[i], t.grants[j])
    {
      assert t.grants[i] == CloseGrant(s.grants[i], s.now) && t.grants[j] == CloseGrant(s.grants[j], s.now);
      assert Apart(s.grants[i], s.grants[j]);
    }
    forall u | u in s.users ensures HasOpen(t.grants, u, t.now) == HasOpen(s.grants, u, s.now) && UserOk(t, u) {
      CloseKeepsOpen(s.grants, s.now, u);
      assert UserOk(s, u);
    }
  }

  /** The job makes the staff flag right for whoever's access it closes and for every
      staff account that is no superuser; nothing else about an account changes. */
  lemma StaffAfterClosing(s: State, u: UserId)
    requires u in s.users
    ensures u in CloseExpired(s).users && CloseExpired(s).users.Keys == s.users.Keys && CloseExpired(s).now == s.now
    ensures (s.users[u].staff && !s.users[u].superuser) || LosesAccess(s, u) ==>
              CloseExpired(s).users[u] == s.users[u].(staff := s.users[u].superuser || HasOpen(s.grants, u, s.now))
    ensures !(s.users[u].staff && !s.users[u].superuser) && !LosesAccess(s, u) ==> CloseExpired(s).users[u] == s.users[u]
  {
    if LosesAccess(s, u) {
      var i :| 0 <= i < |s.grants| && s.grants[i].account == u && !s.grants[i].endedAt.Some? && s.grants[i].expiresAt <= s.now;
      assert Due(s.grants[i], s.now);
    }
    if i :| 0 <= i < |s.grants| && s.grants[i].account == u && Due(s.grants[i], s.now) {
      assert !s.grants[i].endedAt.Some?;
    }
  }

  /** A grant of the account's is over and does not say so yet. */
  predicate LosesAccess(s: State, u: UserId) {
    exists i :: 0 <= i < |s.grants| && s.grants[i].account == u && !s.grants[i].endedAt.Some? && s.grants[i].expiresAt <= s.now
  }

  // ------------------------------------------------------------- every run

  /** `Account` is what happens to an account outside this machine: it is made,
      switched on or off, or becomes or stops being a superuser. */
  datatype Step =
    | Ask(u: UserId, reasonGiven: bool)
    | EndGrant(i: nat, by': UserId, reason: EndReason)
    | SetRoles(u: UserId, wanted: set<Role>, by': UserId)
    | Accept(u: UserId, roles: set<Role>)
    | RunClosing
    | Tick(length: nat)
    | Account(u: UserId, adult: bool, active: bool, superuser: bool)

  predicate Enabled(s: State, step: Step) {
    match step
    case Ask(u, reasonGiven) => u in s.users && RequestAccess(s, u, reasonGiven).Ok?
    case EndGrant(i, by', reason) =>
      && i < |s.grants| && s.grants[i].account in s.users && reason in {Ended, Revoked}
      && End(s, i, Some(by'), reason).Ok?
    case SetRoles(u, wanted, by') => u in s.users && RolesProblem(s, u, wanted, by') == None
    case Accept(u, _) => u in s.users && s.users[u].adult && s.users[u].active
    case RunClosing => true
    case Tick(_) => true
    case Account(_, _, _, _) => true
  }

  function Apply(s: State, step: Step): State
    requires Enabled(s, step)
  {
    match step
    case Ask(u, reasonGiven) => RequestAccess(s, u, reasonGiven).state
    case EndGrant(i, by', reason) => End(s, i, Some(by'), reason).state
    case SetRoles(u, wanted, _) => RolesSet(s, u, wanted)
    case Accept(u, roles) => RolesSet(s, u, s.users[u].roles + roles)
    case RunClosing => CloseExpired(s)
    case Tick(length) => s.(now := s.now + length)
    case Account(u, adult, active, superuser) =>
      var user := if u in s.users then s.users[u] else User(adult, active, superuser, false, {}, {});
      s.(users := s.users[u := user.(adult := adult, active := active, superuser := superuser)])
  }

  lemma TickKeeps(s: State, length: nat)
    requires Inv(s)
    ensures Inv(s.(now := s.now + length))
  {
  }

  lemma AccountKeeps(s: State, u: UserId, adult: bool, active: bool, superuser: bool)
    requires Inv(s)
    ensures var t := Apply(s, Account(u, adult, active, superuser));
            && Inv(t) && t.now == s.now && t.grants == s.grants && t.users.Keys == s.users.Keys + {u}
            && t.users[u].adult == adult && t.users[u].active == active && t.users[u].superuser == superuser
            && (u in s.users ==> t.users[u] == s.users[u].(adult := adult, active := active, superuser := superuser))
            && (u !in s.users ==> !t.users[u].staff && t.users[u].roles == t.users[u].groups == {})
            && forall v :: v in s.users && v != u ==> t.users[v] == s.users[v]
  {
  }

  lemma StepKeeps(s: State, step: Step)
    requires Inv(s) && Enabled(s, step)
    ensures Inv(Apply(s, step))
  {
    match step {
      case Ask(u, reasonGiven) => RequestSpec(s, u, reasonGiven);
      case EndGrant(i, by', reason) => EndSpec(s, i, Some(by'), reason);
      case SetRoles(u, wanted, _) => RolesSetSpec(s, u, wanted);
      case Accept(u, roles) => RolesSetSpec(s, u, s.users[u].roles + roles);
      case RunClosing => CloseExpiredSpec(s);
      case Tick(length) => TickKeeps(s, length);
      case Account(u, adult, active, superuser) => AccountKeeps(s, u, adult, active, superuser);
    }
  }

  predicate Possible(s: State, steps: seq<Step>)
    decreases |steps|
  {
    steps == [] || (Enabled(s, steps[0]) && Possible(Apply(s, steps[0]), steps[1..]))
  }

  function Exec(s: State, steps: seq<Step>): State
    requires Possible(s, steps)
    decreases |steps|
  {
    if steps == [] then s else Exec(Apply(s, steps[0]), steps[1..])
  }

  lemma {:induction false} Always(s: State, steps: seq<Step>)
    requires Inv(s) && Possible(s, steps)
    ensures Inv(Exec(s, steps))
    decreases |steps|
  {
    if steps == [] {
    } else {
      StepKeeps(s, steps[0]);
      Always(Apply(s, steps[0]), steps[1..]);
    }
  }

  /** In every run from a state without grants in which groups follow roles: an
      account's access intervals never overlap and never pass twelve hours, an open
      grant is the only one, and whoever holds it has a role and is staff. */
  lemma AccessIsBoxed(s: State, steps: seq<Step>)
    requires s.grants == [] && Possible(s, steps)
    requires forall u :: u in s.users ==> s.users[u].groups == s.users[u].roles
    ensures var t := Exec(s, steps);
            && (forall i :: 0 <= i < |t.grants| ==> Until(t.grants[i]) - t.grants[i].startedAt <= ACCESS_SECONDS)
            && (forall i, j :: 0 <= i < j < |t.grants| && t.grants[i].account == t.grants[j].account ==>
                 Apart(t.grants[i], t.grants[j]))
            && (forall i, j :: 0 <= i < j < |t.grants| && t.grants[i].account == t.grants[j].account ==>
                 !IsOpen(t.grants[i], t.now) || !IsOpen(t.grants[j], t.now))
            && (forall u :: u in t.users && HasOpen(t.grants, u, t.now) ==> t.users[u].roles != {} && t.users[u].staff)
            && (forall u :: u in t.users ==> t.users[u].groups == t.users[u].roles)
  {
    assert forall u :: u in s.users ==> UserOk(s, u);
    Always(s, steps);
    var t := Exec(s, steps);
    forall i, j | 0 <= i < j < |t.grants| && t.grants[i].account == t.grants[j].account
      ensures !IsOpen(t.grants[i], t.now) || !IsOpen(t.grants[j], t.now)
    {
      assert Apart(t.grants[i], t.grants[j]);
    }
    assert forall u :: u in t.users ==> UserOk(t, u);
    assert forall i :: 0 <= i < |t.grants| ==> GrantOk(t.grants[i], t.now);
  }

  // ------------------------------------------------------ exactly when they succeed

  /** Roles are changed by somebody else, of an active adult, and not so that no other
      active admin is left. */
  lemma SetRolesExactly(s: State, u: UserId, wanted: set<Role>, by': UserId)
    requires u in s.users
    ensures RolesProblem(s, u, wanted, by') == None <==>
              && u != by' && s.users[u].adult && s.users[u].active
              && (Admin in s.users[u].roles && Admin !in wanted ==>
                    exists v :: v in s.users && v != u && s.users[v].active && Admin in s.users[v].roles)
  {
    if v :| v in s.users && v != u && s.users[v].active && Admin in s.users[v].roles {
      assert ActiveAdmin(s.users[v]);
    }
    if AnotherAdmin(s, u) {
      var v :| v in s.users && v != u && ActiveAdmin(s.users[v]);
      assert s.users[v].active && Admin in s.users[v].roles;
    }
  }

  /** An adult with a role and a reason gets access exactly while they have none. */
  lemma RequestExactly(s: State, u: UserId, reasonGiven: bool)
    requires u in s.users
    ensures RequestAccess(s, u, reasonGiven).Ok? <==>
              && s.users[u].adult && s.users[u].roles != {} && reasonGiven
              && forall i :: 0 <= i < |s.grants| && s.grants[i].account == u ==> !Runs(s.grants[i], s.now)
  {
    if i :| 0 <= i < |s.grants| && s.grants[i].account == u && Runs(s.grants[i], s.now) {
      assert IsOpen(s.grants[i], s.now);
    }
  }

  /** Begun, not ended, and its time not over. */
  predicate Runs(g: Grant, now: int) {
    g.startedAt <= now && !g.endedAt.Some? && now < g.expiresAt
  }

  /** A person can end exactly access that runs. */
  lemma EndExactly(s: State, i: nat, endedBy: Option<UserId>, reason: EndReason)
    requires i < |s.grants| && s.grants[i].account in s.users
    ensures End(s, i, endedBy, reason).Ok? <==> Runs(s.grants[i], s.now) || reason == Expired
  {
  }

  lemma RunsOne(s: State, step: Step, rest: seq<Step>)
    requires Enabled(s, step) && Possible(Apply(s, step), rest)
    ensures Possible(s, [step] + rest) && Exec(s, [step] + rest) == Exec(Apply(s, step), rest)
  {
    assert ([step] + rest)[1..] == rest;
  }

  lemma RunsFour(s: State, a: Step, b: Step, c: Step, d: Step)
    requires Enabled(s, a) && Enabled(Apply(s, a), b) && Enabled(Apply(Apply(s, a), b), c)
    requires Enabled(Apply(Apply(Apply(s, a), b), c), d)
    ensures Possible(s, [a] + ([b] + [])) && Exec(s, [a] + ([b] + [])) == Apply(Apply(s, a), b)
    ensures Possible(s, [a] + ([b] + ([c] + ([d] + []))))
    ensures Exec(s, [a] + ([b] + ([c] + ([d] + [])))) == Apply(Apply(Apply(Apply(s, a), b), c), d)
  {
    var s1 := Apply(s, a);
    var s2 := Apply(s1, b);
    var s3 := Apply(s2, c);
    RunsOne(s1, b, []);
    RunsOne(s, a, [b] + []);
    RunsOne(s3, d, []);
    RunsOne(s2, c, [d] + []);
    RunsOne(s1, b, [c] + ([d] + []));
    RunsOne(s, a, [b] + ([c] + ([d] + [])));
  }

  /** Given a role, the account can ask, and then has access. */
  lemma AccessComes(s: State, u: UserId, wanted: set<Role>, by': UserId)
    requires Inv(s) && u in s.users && u != by' && s.users[u].adult && s.users[u].active && wanted != {}
    requires Admin in s.users[u].roles ==> Admin in wanted
    requires !HasOpen(s.grants, u, s.now)
    ensures Enabled(s, SetRoles(u, wanted, by')) && Enabled(Apply(s, SetRoles(u, wanted, by')), Ask(u, true))
    ensures var t := Apply(Apply(s, SetRoles(u, wanted, by')), Ask(u, true));
            && Inv(t) && t.now == s.now && u in t.users && t.users[u].superuser == s.users[u].superuser
            && HasOpen(t.grants, u, t.now)
  {
    SetRolesExactly(s, u, wanted, by');
    RolesSetSpec(s, u, wanted);
    KeepsWho(s, u, wanted);
    var a := Apply(s, SetRoles(u, wanted, by'));
    assert a.users[u].roles != {};
    RequestSpec(a, u, true);
    assert a.users[u].superuser == Apply(a, Ask(u, true)).users[u].superuser;
  }

  lemma AccessGoes(s: State, u: UserId)
    requires Inv(s) && u in s.users && !s.users[u].superuser
    ensures var c := Apply(s, Tick(12 * 3600));
            && Enabled(s, Tick(12 * 3600)) && Enabled(c, RunClosing)
            && var t := Apply(c, RunClosing);
               t.now == s.now + 12 * 3600 && u in t.users && !HasOpen(t.grants, u, t.now) && !t.users[u].staff
  {
    var c := Apply(s, Tick(12 * 3600));
    TickKeeps(s, 12 * 3600);
    NoneOpenAfter(s, u, 12 * 3600);
    CloseExpiredSpec(c);
    StaffAfterClosing(c, u);
  }

  /** An active adult whom somebody gives a role can ask for access, and has it for
      twelve hours, at the end of which the job takes the staff status away. */
  lemma AccessComesAndGoes(s: State, u: UserId, by': UserId)
    requires Inv(s) && u in s.users && u != by' && s.users[u].adult && s.users[u].active && !s.users[u].superuser
    requires !HasOpen(s.grants, u, s.now)
    ensures var give, ask := SetRoles(u, s.users[u].roles + {Board}, by'), Ask(u, true);
            var later := [Tick(12 * 3600)] + ([RunClosing] + []);
            && Possible(s, [give] + ([ask] + [])) && HasOpen(Exec(s, [give] + ([ask] + [])).grants, u, s.now)
            && Possible(s, [give] + ([ask] + later))
            && var t := Exec(s, [give] + ([ask] + later));
               t.now == s.now + 12 * 3600 && u in t.users && !HasOpen(t.grants, u, t.now) && !t.users[u].staff
  {
    var wanted := s.users[u].roles + {Board};
    assert Board in wanted;
    AccessComes(s, u, wanted, by');
    AccessGoes(Apply(Apply(s, SetRoles(u, wanted, by')), Ask(u, true)), u);
    RunsFour(s, SetRoles(u, wanted, by'), Ask(u, true), Tick(12 * 3600), RunClosing);
  }

  lemma KeepsWho(s: State, u: UserId, wanted: set<Role>)
    requires u in s.users
    ensures RolesSet(s, u, wanted).users[u].adult == s.users[u].adult
    ensures RolesSet(s, u, wanted).users[u].superuser == s.users[u].superuser
  {
  }

  lemma NoneOpenAfter(s: State, u: UserId, length: nat)
    requires Inv(s) && 12 * 3600 <= length
    ensures !HasOpen(s.grants, u, s.now + length)
  {
    assert forall i :: 0 <= i < |s.grants| ==> GrantOk(s.grants[i], s.now);
  }

  /** This step gives the account the role: somebody else sets its roles, or it accepts
      an invitation with it. */
  predicate Gives(step: Step, u: UserId, role: Role) {
    || (step.SetRoles? && step.u == u && role in step.wanted && step.by' != u)
    || (step.Accept? && step.u == u && role in step.roles)
  }

  predicate Holds(s: State, u: UserId, role: Role) {
    u in s.users && role in s.users[u].roles
  }

  lemma GivesStep(s: State, step: Step, u: UserId, role: Role)
    requires Inv(s) && Enabled(s, step) && Holds(Apply(s, step), u, role)
    ensures Holds(s, u, role) || Gives(step, u, role)
  {
    match step {
      case SetRoles(v, wanted, by') =>
        SetRolesExactly(s, v, wanted, by');
        RolesSetSpec(s, v, wanted);
      case Accept(v, roles) => RolesSetSpec(s, v, s.users[v].roles + roles);
      case Account(_, _, _, _) =>
      case Ask(_, _) =>
      case EndGrant(_, _, _) =>
      case RunClosing =>
      case Tick(_) =>
    }
  }

  /** Over every run: a role an account came to hold was given to it by somebody else, or
      came with an invitation it accepted. */
  lemma {:induction false} RolesAreGiven(s: State, steps: seq<Step>, u: UserId, role: Role)
    requires Inv(s) && Possible(s, steps) && Holds(Exec(s, steps), u, role)
    ensures Holds(s, u, role) || exists i :: 0 <= i < |steps| && Gives(steps[i], u, role)
    decreases |steps|
  {
    if steps == [] {
    } else {
      var t := Apply(s, steps[0]);
      StepKeeps(s, steps[0]);
      RolesAreGiven(t, steps[1..], u, role);
      if Holds(t, u, role) {
        GivesStep(s, steps[0], u, role);
      } else {
        var i :| 0 <= i < |steps[1..]| && Gives(steps[1..][i], u, role);
        assert steps[i + 1] == steps[1..][i];
      }
    }
  }

  // ------------------------------------------------- an admin, over every run

  ghost predicate HasAdmin(s: State) {
    exists v :: v in s.users && Admin in s.users[v].roles
  }

  /** Who holds the admin role without being the account that changes still does. */
  lemma AdminKept(s: State, u: UserId, wanted: set<Role>, v: UserId)
    requires Inv(s) && u in s.users && v in s.users && Admin in s.users[v].roles && (v != u || Admin in wanted)
    ensures HasAdmin(RolesSet(s, u, wanted))
  {
    RolesSetSpec(s, u, wanted);
    assert Admin in RolesSet(s, u, wanted).users[v].roles;
  }

  lemma RolesKeepAdmin(s: State, step: Step)
    requires Inv(s) && HasAdmin(s) && Enabled(s, step) && (step.SetRoles? || step.Accept?)
    ensures HasAdmin(Apply(s, step))
  {
    var v :| v in s.users && Admin in s.users[v].roles;
    match step {
      case SetRoles(u, wanted, _) =>
        if v == u && Admin !in wanted {
          var w :| w in s.users && w != u && ActiveAdmin(s.users[w]);
          AdminKept(s, u, wanted, w);
        } else {
          AdminKept(s, u, wanted, v);
        }
      case Accept(u, roles) => AdminKept(s, u, s.users[u].roles + roles, v);
    }
  }

  lemma SameRoles(s: State, t: State)
    requires HasAdmin(s) && s.users.Keys <= t.users.Keys
    requires forall v :: v in s.users ==> t.users[v].roles == s.users[v].roles
    ensures HasAdmin(t)
  {
    var v :| v in s.users && Admin in s.users[v].roles;
    assert Admin in t.users[v].roles;
  }

  lemma StepKeepsAdmin(s: State, step: Step)
    requires Inv(s) && HasAdmin(s) && Enabled(s, step)
    ensures HasAdmin(Apply(s, step))
  {
    if step.SetRoles? || step.Accept? {
      RolesKeepAdmin(s, step);
    } else {
      SameRoles(s, Apply(s, step));
    }
  }

  /** At every moment of every run some account holds the admin role. */
  lemma {:induction false} AlwaysAnAdmin(s: State, steps: seq<Step>)
    requires Inv(s) && HasAdmin(s) && Possible(s, steps)
    ensures HasAdmin(Exec(s, steps))
    decreases |steps|
  {
    if steps == [] {
    } else {
      StepKeepsAdmin(s, steps[0]);
      StepKeeps(s, steps[0]);
      AlwaysAnAdmin(Apply(s, steps[0]), steps[1..]);
    }
  }

  // Whether an admin can also log in is another matter: an account is switched off
  // on the Django admin's user page, which knows nothing of roles.

  /** The last active admin's account is switched off. */
  ghost predicate SwitchesOffLast(s: State, step: Step) {
    && step.Account? && !step.active && step.u in s.users && ActiveAdmin(s.users[step.u]) && !AnotherAdmin(s, step.u)
  }

  lemma SameAdmins(s: State, t: State)
    requires t.users.Keys == s.users.Keys
    requires forall v :: v in s.users ==> ActiveAdmin(t.users[v]) == ActiveAdmin(s.users[v])
    ensures SomeAdmin(t) == SomeAdmin(s)
  {
  }

  lemma ActiveAdminAdding(s: State, u: UserId, roles: set<Role>)
    requires Inv(s) && u in s.users && SomeAdmin(s)
    ensures SomeAdmin(RolesSet(s, u, s.users[u].roles + roles))
  {
    RolesSetSpec(s, u, s.users[u].roles + roles);
    ActiveKept(s, u, s.users[u].roles + roles);
    var t := RolesSet(s, u, s.users[u].roles + roles);
    var v :| v in s.users && ActiveAdmin(s.users[v]);
    assert ActiveAdmin(t.users[v]);
  }

  lemma ActiveAdminAccount(s: State, step: Step)
    requires SomeAdmin(s) && Enabled(s, step) && step.Account?
    ensures SomeAdmin(Apply(s, step)) <==> !SwitchesOffLast(s, step)
  {
    var t := Apply(s, step);
    assert forall v :: v in s.users && v != step.u ==> t.users[v] == s.users[v];
    var v :| v in s.users && ActiveAdmin(s.users[v]);
    if !SwitchesOffLast(s, step) {
      if v != step.u {
        assert ActiveAdmin(t.users[v]);
      } else if !step.active {
        var w :| w in s.users && w != step.u && ActiveAdmin(s.users[w]);
        assert ActiveAdmin(t.users[w]);
      } else {
        assert ActiveAdmin(t.users[v]);
      }
    }
  }

  /** An organisation with an active admin is left without one exactly when the last
      one's account is switched off. */
  lemma ActiveAdminExactly(s: State, step: Step)
    requires Inv(s) && SomeAdmin(s) && Enabled(s, step)
    ensures SomeAdmin(Apply(s, step)) <==> !SwitchesOffLast(s, step)
  {
    match step {
      case SetRoles(u, wanted, by') => AdminRemains(s, u, wanted, by');
      case Accept(u, roles) => ActiveAdminAdding(s, u, roles);
      case Account(_, _, _, _) => ActiveAdminAccount(s, step);
      case Ask(_, _) => SameAdmins(s, Apply(s, step));
      case EndGrant(_, _, _) => SameAdmins(s, Apply(s, step));
      case RunClosing => SameAdmins(s, Apply(s, step));
      case Tick(_) => SameAdmins(s, Apply(s, step));
    }
  }

  ghost predicate NeverSwitchesOffLast(s: State, steps: seq<Step>)
    requires Possible(s, steps)
    decreases |steps|
  {
    steps == [] || (!SwitchesOffLast(s, steps[0]) && NeverSwitchesOffLast(Apply(s, steps[0]), steps[1..]))
  }

  ghost predicate AlwaysSomeAdmin(s: State, steps: seq<Step>)
    requires Possible(s, steps)
    decreases |steps|
  {
    SomeAdmin(s) && (steps == [] || AlwaysSomeAdmin(Apply(s, steps[0]), steps[1..]))
  }

  /** Over every run: there is always an active admin if and only if the last one is
      never switched off. */
  lemma {:induction false} AlwaysAnActiveAdmin(s: State, steps: seq<Step>)
    requires Inv(s) && SomeAdmin(s) && Possible(s, steps)
    ensures AlwaysSomeAdmin(s, steps) <==> NeverSwitchesOffLast(s, steps)
    decreases |steps|
  {
    if steps == [] {
    } else {
      ActiveAdminExactly(s, steps[0]);
      if SwitchesOffLast(s, steps[0]) {
        assert !SomeAdmin(Apply(s, steps[0]));
      } else {
        StepKeeps(s, steps[0]);
        AlwaysAnActiveAdmin(Apply(s, steps[0]), steps[1..]);
      }
    }
  }

  /** One admin, switched off: the role is still held, by nobody who can log in. */
  lemma LastAdminSwitchedOff()
    ensures exists s: State, step: Step ::
              Inv(s) && SomeAdmin(s) && Enabled(s, step) && HasAdmin(Apply(s, step)) && !SomeAdmin(Apply(s, step))
  {
    var s := State(0, map[0 := User(true, true, false, false, {Admin}, {Admin})], []);
    var step := Account(0, true, false, false);
    assert UserOk(s, 0) && ActiveAdmin(s.users[0]);
    assert Admin in Apply(s, step).users[0].roles;
    assert Inv(s) && SomeAdmin(s);
  }
}

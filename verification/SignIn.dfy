/** The sign-in policy: what an account's roles ask of its login today, and what
    they will ask later (accounts/sign_in.py). Days are numbers. */
module SignIn {
  import opened Basics

  datatype Level = Password | TwoStep | Passkey

  function Strength(level: Level): nat {
    match level
    case Password => 0
    case TwoStep => 1
    case Passkey => 2
  }

  datatype PolicyRole = Superuser | OrganisationAdmin | OrganisationBoard | Reviewer | Champion | Mentor | AnyAdult

  datatype Row = Row(role: PolicyRole, level: Level, from: Option<int>)

  datatype Requirement = Requirement(level: Level, requiredFrom: Option<int>, roles: seq<PolicyRole>)

  /** The policy leaves out rows that ask no more than a password. */
  ghost predicate PolicyOk(rows: seq<Row>) {
    forall i :: 0 <= i < |rows| ==> rows[i].level != Password
  }

  predicate InForce(row: Row, today: int) {
    row.from == None || row.from.value <= today
  }

  predicate AsksNow(row: Row, held: set<PolicyRole>, today: int) {
    row.role in held && InForce(row, today)
  }

  predicate AsksLater(row: Row, held: set<PolicyRole>, today: int) {
    row.role in held && !InForce(row, today)
  }

  /** The roles that ask for exactly this level today, in the order of the rows. */
  function RolesNow(rows: seq<Row>, held: set<PolicyRole>, today: int, level: Level): seq<PolicyRole> {
    if rows == [] then []
    else
      var before := RolesNow(rows[..|rows| - 1], held, today, level);
      var last := rows[|rows| - 1];
      if AsksNow(last, held, today) && last.level == level then before + [last.role] else before
  }

  function RolesLater(rows: seq<Row>, held: set<PolicyRole>, today: int, level: Level): seq<PolicyRole> {
    if rows == [] then []
    else
      var before := RolesLater(rows[..|rows| - 1], held, today, level);
      var last := rows[|rows| - 1];
      if AsksLater(last, held, today) && last.level == level then before + [last.role] else before
  }

  /** The row from which a requirement has its day, the first of its roles. */
  predicate Leads(row: Row, held: set<PolicyRole>, today: int, r: Requirement) {
    AsksNow(row, held, today) && row.level == r.level && r.roles != [] && r.roles[0] == row.role && row.from == r.requiredFrom
  }

  /** The strongest level asked for today with exactly the roles that ask for it, and
      the day of the first of them. */
  ghost predicate IsEnforced(rows: seq<Row>, held: set<PolicyRole>, today: int, r: Requirement) {
    && (forall i :: 0 <= i < |rows| && AsksNow(rows[i], held, today) ==> Strength(rows[i].level) <= Strength(r.level))
    && (r.level == Password ==> r.requiredFrom == None)
    && (r.level != Password ==> exists i :: 0 <= i < |rows| && Leads(rows[i], held, today, r))
    && r.roles == RolesNow(rows, held, today, r.level)
  }

  /** A later row that asks for more than `level`. */
  predicate Raises(row: Row, held: set<PolicyRole>, today: int, level: Level) {
    AsksLater(row, held, today) && Strength(level) < Strength(row.level)
  }

  /** The strongest level later rows ask for, if it is stronger than today's, with
      exactly their roles and the earliest of their days. */
  ghost predicate IsUpcoming(rows: seq<Row>, held: set<PolicyRole>, today: int, level: Level, u: Option<Requirement>) {
    match u
    case None => forall i :: 0 <= i < |rows| ==> !Raises(rows[i], held, today, level)
    case Some(r) =>
      && Strength(level) < Strength(r.level)
      && (forall i :: 0 <= i < |rows| && Raises(rows[i], held, today, level) ==> Strength(rows[i].level) <= Strength(r.level))
      && r.roles == RolesLater(rows, held, today, r.level)
      && r.requiredFrom.Some?
      && (forall i :: 0 <= i < |rows| && AsksLater(rows[i], held, today) && rows[i].level == r.level ==>
           r.requiredFrom.value <= rows[i].from.value)
      && exists i :: 0 <= i < |rows| && AsksLater(rows[i], held, today) && rows[i].level == r.level && rows[i].from == r.requiredFrom
  }

  lemma {:induction false} NoRolesNow(rows: seq<Row>, held: set<PolicyRole>, today: int, level: Level)
    requires forall i :: 0 <= i < |rows| && AsksNow(rows[i], held, today) ==> rows[i].level != level
    ensures RolesNow(rows, held, today, level) == []
  {
    if rows == [] {
    } else {
      NoRolesNow(rows[..|rows| - 1], held, today, level);
    }
  }

  lemma {:induction false} NoRolesLater(rows: seq<Row>, held: set<PolicyRole>, today: int, level: Level)
    requires forall i :: 0 <= i < |rows| && AsksLater(rows[i], held, today) ==> rows[i].level != level
    ensures RolesLater(rows, held, today, level) == []
  {
    if rows == [] {
    } else {
      NoRolesLater(rows[..|rows| - 1], held, today, level);
    }
  }

  /** One more row, for the strongest level so far. */
  function Strengthened(enforced: Requirement, row: Row, held: set<PolicyRole>, today: int): Requirement {
    if !AsksNow(row, held, today) then enforced
    else if Strength(row.level) > Strength(enforced.level) then Requirement(row.level, row.from, [row.role])
    else if row.level == enforced.level then enforced.(roles := enforced.roles + [row.role])
    else enforced
  }

  lemma StrengthenedSpec(rows: seq<Row>, held: set<PolicyRole>, today: int, enforced: Requirement, row: Row)
    requires IsEnforced(rows, held, today, enforced) && row.level != Password
    ensures IsEnforced(rows + [row], held, today, Strengthened(enforced, row, held, today))
  {
    var more := rows + [row];
    var r := Strengthened(enforced, row, held, today);
    assert more[..|more| - 1] == rows;
    assert forall i :: 0 <= i < |rows| ==> more[i] == rows[i];
    assert more[|rows|] == row;
    if r.level != Password {
      if AsksNow(row, held, today) && row.level == r.level {
        assert Leads(more[|rows|], held, today, r) || enforced.level == r.level;
      }
      if enforced.level == r.level {
        var i :| 0 <= i < |rows| && Leads(rows[i], held, today, enforced);
        assert Leads(more[i], held, today, r);
      }
    }
    if AsksNow(row, held, today) && Strength(row.level) > Strength(enforced.level) {
      NoRolesNow(rows, held, today, row.level);
    }
  }

  function Sooner(a: Option<int>, b: Option<int>): Option<int> {
    if a == None then b else if b == None || a.value < b.value then a else b
  }

  function Announced(upcoming: Option<Requirement>, row: Row, held: set<PolicyRole>, today: int, level: Level): Option<Requirement> {
    if !Raises(row, held, today, level) then upcoming
    else if upcoming == None || Strength(row.level) > Strength(upcoming.value.level) then
      Some(Requirement(row.level, row.from, [row.role]))
    else if row.level == upcoming.value.level then
      Some(Requirement(row.level, Sooner(upcoming.value.requiredFrom, row.from), upcoming.value.roles + [row.role]))
    else upcoming
  }

  lemma NothingRaised(rows: seq<Row>, held: set<PolicyRole>, today: int, level: Level, u: Option<Requirement>, above: Level)
    requires IsUpcoming(rows, held, today, level, u) && Strength(level) < Strength(above)
    requires u == None || Strength(u.value.level) < Strength(above)
    ensures RolesLater(rows, held, today, above) == []
    ensures forall i :: 0 <= i < |rows| && AsksLater(rows[i], held, today) ==> rows[i].level != above
  {
    forall i | 0 <= i < |rows| && AsksLater(rows[i], held, today) ensures rows[i].level != above {
      assert Raises(rows[i], held, today, level) || !Raises(rows[i], held, today, level);
    }
    NoRolesLater(rows, held, today, above);
  }

  lemma AnnouncedSpec(rows: seq<Row>, held: set<PolicyRole>, today: int, level: Level, u: Option<Requirement>, row: Row)
    requires IsUpcoming(rows, held, today, level, u)
    ensures IsUpcoming(rows + [row], held, today, level, Announced(u, row, held, today, level))
  {
    var more := rows + [row];
    var v := Announced(u, row, held, today, level);
    assert more[..|more| - 1] == rows;
    assert forall i :: 0 <= i < |rows| ==> more[i] == rows[i];
    assert more[|rows|] == row;
    if Raises(row, held, today, level) && (u == None || Strength(row.level) > Strength(u.value.level)) {
      NothingRaised(rows, held, today, level, u, row.level);
      assert AsksLater(more[|rows|], held, today) && more[|rows|].level == v.value.level && more[|rows|].from == v.value.requiredFrom;
    } else if u.Some? {
      var i :| 0 <= i < |rows| && AsksLater(rows[i], held, today) && rows[i].level == u.value.level && rows[i].from == u.value.requiredFrom;
      assert more[i].from == u.value.requiredFrom;
      assert v.value.requiredFrom == more[i].from || v.value.requiredFrom == more[|rows|].from;
    }
  }

  /** One row further in either pass. */
  lemma EnforcedSoFar(rows: seq<Row>, i: nat, held: set<PolicyRole>, today: int, enforced: Requirement)
    requires i < |rows| && rows[i].level != Password && IsEnforced(rows[..i], held, today, enforced)
    ensures IsEnforced(rows[..i + 1], held, today, Strengthened(enforced, rows[i], held, today))
  {
    assert rows[..i + 1] == rows[..i] + [rows[i]];
    StrengthenedSpec(rows[..i], held, today, enforced, rows[i]);
  }

  lemma UpcomingSoFar(rows: seq<Row>, i: nat, held: set<PolicyRole>, today: int, level: Level, u: Option<Requirement>)
    requires i < |rows| && IsUpcoming(rows[..i], held, today, level, u)
    ensures IsUpcoming(rows[..i + 1], held, today, level, Announced(u, rows[i], held, today, level))
  {
    assert rows[..i + 1] == rows[..i] + [rows[i]];
    AnnouncedSpec(rows[..i], held, today, level, u, rows[i]);
  }

  /** The first pass over the policy. */
  method StrongestNow(rows: seq<Row>, held: set<PolicyRole>, today: int) returns (enforced: Requirement)
    requires PolicyOk(rows)
    ensures IsEnforced(rows, held, today, enforced)
  {
    enforced := Requirement(Password, None, []);
    var i := 0;
    while i < |rows|
      invariant 0 <= i <= |rows|
      invariant IsEnforced(rows[..i], held, today, enforced)
    {
      ghost var next := Strengthened(enforced, rows[i], held, today);
      EnforcedSoFar(rows, i, held, today, enforced);
      var role, level, from := rows[i].role, rows[i].level, rows[i].from;
      if role in held && (from == None || from.value <= today) {
        if Strength(level) > Strength(enforced.level) {
          enforced := Requirement(level, from, [role]);
        } else if level == enforced.level {
          enforced := enforced.(roles := enforced.roles + [role]);
        }
      }
      assert enforced == next;
      i := i + 1;
    }
    assert rows[..i] == rows;
  }

  /** The second pass, for what is announced above `current`. */
  method StrongestLater(rows: seq<Row>, held: set<PolicyRole>, today: int, current: Level) returns (upcoming: Option<Requirement>)
    ensures IsUpcoming(rows, held, today, current, upcoming)
  {
    upcoming := None;
    var i := 0;
    while i < |rows|
      invariant 0 <= i <= |rows|
      invariant IsUpcoming(rows[..i], held, today, current, upcoming)
    {
      ghost var next := Announced(upcoming, rows[i], held, today, current);
      UpcomingSoFar(rows, i, held, today, current, upcoming);
      var role, level, from := rows[i].role, rows[i].level, rows[i].from;
      if role in held && from.Some? && from.value > today && Strength(level) > Strength(current) {
        if upcoming == None || Strength(level) > Strength(upcoming.value.level) {
          upcoming := Some(Requirement(level, from, [role]));
        } else if level == upcoming.value.level {
          upcoming := Some(Requirement(level, Sooner(upcoming.value.requiredFrom, from), upcoming.value.roles + [role]));
        }
      }
      assert upcoming == next;
      i := i + 1;
    }
    assert rows[..i] == rows;
  }

  method RequirementsFor(rows: seq<Row>, held: set<PolicyRole>, today: int)
    returns (enforced: Requirement, upcoming: Option<Requirement>)
    requires PolicyOk(rows)
    ensures IsEnforced(rows, held, today, enforced)
    ensures IsUpcoming(rows, held, today, enforced.level, upcoming)
  {
    enforced := StrongestNow(rows, held, today);
    upcoming := StrongestLater(rows, held, today, enforced.level);
  }

  // ------------------------------------------------- whatever the order of rows

  lemma {:induction false} RolesNowSpec(rows: seq<Row>, held: set<PolicyRole>, today: int, level: Level, role: PolicyRole)
    ensures role in RolesNow(rows, held, today, level) <==>
            exists row :: row in rows && row.role == role && AsksNow(row, held, today) && row.level == level
  {
    if rows == [] {
    } else {
      var before, last := rows[..|rows| - 1], rows[|rows| - 1];
      RolesNowSpec(before, held, today, level, role);
      assert rows == before + [last];
      assert forall row :: row in rows <==> row in before || row == last;
    }
  }

  lemma {:induction false} RolesLaterSpec(rows: seq<Row>, held: set<PolicyRole>, today: int, level: Level, role: PolicyRole)
    ensures role in RolesLater(rows, held, today, level) <==>
            exists row :: row in rows && row.role == role && AsksLater(row, held, today) && row.level == level
  {
    if rows == [] {
    } else {
      var before, last := rows[..|rows| - 1], rows[|rows| - 1];
      RolesLaterSpec(before, held, today, level, role);
      assert rows == before + [last];
      assert forall row :: row in rows <==> row in before || row == last;
    }
  }

  ghost predicate SameRows(rows: seq<Row>, other: seq<Row>) {
    forall row :: row in rows <==> row in other
  }

  lemma EnforcedReaches(rows: seq<Row>, other: seq<Row>, held: set<PolicyRole>, today: int, e: Requirement, f: Requirement)
    requires SameRows(rows, other)
    requires IsEnforced(rows, held, today, e) && IsEnforced(other, held, today, f)
    ensures Strength(e.level) <= Strength(f.level)
  {
    if e.level != Password {
      var i :| 0 <= i < |rows| && Leads(rows[i], held, today, e);
      assert rows[i] in other;
      var j :| 0 <= j < |other| && other[j] == rows[i];
    }
  }

  /** The order in which the rows come changes neither the enforced level nor which
      roles ask for it. */
  lemma EnforcedInAnyOrder(rows: seq<Row>, other: seq<Row>, held: set<PolicyRole>, today: int, e: Requirement, f: Requirement)
    requires SameRows(rows, other)
    requires IsEnforced(rows, held, today, e) && IsEnforced(other, held, today, f)
    ensures e.level == f.level && forall role :: role in e.roles <==> role in f.roles
  {
    EnforcedReaches(rows, other, held, today, e, f);
    EnforcedReaches(other, rows, held, today, f, e);
    forall role ensures role in e.roles <==> role in f.roles {
      RolesNowSpec(rows, held, today, e.level, role);
      RolesNowSpec(other, held, today, e.level, role);
    }
  }

  lemma UpcomingReaches(rows: seq<Row>, other: seq<Row>, held: set<PolicyRole>, today: int, level: Level,
                        u: Option<Requirement>, v: Option<Requirement>)
    requires SameRows(rows, other) && u.Some?
    requires IsUpcoming(rows, held, today, level, u) && IsUpcoming(other, held, today, level, v)
    ensures v.Some? && Strength(u.value.level) <= Strength(v.value.level)
    ensures u.value.level == v.value.level ==> v.value.requiredFrom.value <= u.value.requiredFrom.value
  {
    var i :| 0 <= i < |rows| && AsksLater(rows[i], held, today) && rows[i].level == u.value.level && rows[i].from == u.value.requiredFrom;
    assert rows[i] in other;
    var j :| 0 <= j < |other| && other[j] == rows[i];
    assert Raises(other[j], held, today, level);
  }

  /** Nor the upcoming level, its day or its roles. */
  lemma UpcomingInAnyOrder(rows: seq<Row>, other: seq<Row>, held: set<PolicyRole>, today: int, level: Level,
                           u: Option<Requirement>, v: Option<Requirement>)
    requires SameRows(rows, other)
    requires IsUpcoming(rows, held, today, level, u) && IsUpcoming(other, held, today, level, v)
    ensures u.Some? <==> v.Some?
    ensures u.Some? ==> u.value.level == v.value.level && u.value.requiredFrom == v.value.requiredFrom
    ensures u.Some? ==> forall role :: role in u.value.roles <==> role in v.value.roles
  {
    if u.Some? { UpcomingReaches(rows, other, held, today, level, u, v); }
    if v.Some? { UpcomingReaches(other, rows, held, today, level, v, u); }
    if u.Some? {
      forall role ensures role in u.value.roles <==> role in v.value.roles {
        RolesLaterSpec(rows, held, today, u.value.level, role);
        RolesLaterSpec(other, held, today, u.value.level, role);
      }
    }
  }

  /** What the enforced answer says about the rows: no held role's row in force asks for
      more, and its roles are those whose row in force asks for as much. */
  lemma EnforcedMeans(rows: seq<Row>, held: set<PolicyRole>, today: int, e: Requirement)
    requires IsEnforced(rows, held, today, e)
    ensures forall row :: row in rows && row.role in held && (row.from.Some? ==> row.from.value <= today) ==>
              Strength(row.level) <= Strength(e.level)
    ensures forall role :: role in e.roles <==>
              role in held && exists row :: row in rows && row.role == role && (row.from.Some? ==> row.from.value <= today) && row.level == e.level
    ensures e.level != Password ==> e.roles != []
  {
    forall row | row in rows && row.role in held && (row.from.Some? ==> row.from.value <= today)
      ensures Strength(row.level) <= Strength(e.level)
    {
      var i :| 0 <= i < |rows| && rows[i] == row;
      assert AsksNow(rows[i], held, today);
    }
    forall role ensures role in e.roles <==>
        role in held && exists row :: row in rows && row.role == role && (row.from.Some? ==> row.from.value <= today) && row.level == e.level
    {
      RolesNowSpec(rows, held, today, e.level, role);
      if row :| row in rows && row.role == role && AsksNow(row, held, today) && row.level == e.level {
        assert row.from.Some? ==> row.from.value <= today;
      }
      if row :| row in rows && row.role == role && role in held && (row.from.Some? ==> row.from.value <= today) && row.level == e.level {
        assert AsksNow(row, held, today);
      }
    }
  }

  /** What the upcoming answer says: it is more than what is enforced, no held role's
      later row asks for more still, and its day is the first of those that ask for as
      much. */
  lemma UpcomingMeans(rows: seq<Row>, held: set<PolicyRole>, today: int, level: Level, u: Option<Requirement>)
    requires IsUpcoming(rows, held, today, level, u)
    ensures forall row :: row in rows && row.role in held && row.from.Some? && today < row.from.value ==>
              Strength(row.level) <= (if u.Some? then Strength(u.value.level) else Strength(level))
    ensures u.Some? ==>
              && Strength(level) < Strength(u.value.level) && u.value.requiredFrom.Some? && today < u.value.requiredFrom.value
              && forall row :: row in rows && row.role in held && row.from.Some? && today < row.from.value && row.level == u.value.level ==>
                   u.value.requiredFrom.value <= row.from.value && row.role in u.value.roles
  {
    forall row | row in rows && row.role in held && row.from.Some? && today < row.from.value
      ensures Strength(row.level) <= (if u.Some? then Strength(u.value.level) else Strength(level))
      ensures u.Some? && row.level == u.value.level ==> u.value.requiredFrom.value <= row.from.value && row.role in u.value.roles
    {
      var i :| 0 <= i < |rows| && rows[i] == row;
      assert AsksLater(rows[i], held, today) && !Raises(rows[i], held, today, level) <==> Strength(row.level) <= Strength(level);
      if u.Some? { RolesLaterSpec(rows, held, today, u.value.level, row.role); }
    }
  }

  // --------------------------------------------------------- as days go by

  /** As the day advances the enforced level never gets weaker. */
  lemma NeverWeaker(rows: seq<Row>, held: set<PolicyRole>, today: int, later: int, e: Requirement, f: Requirement)
    requires today <= later && IsEnforced(rows, held, today, e) && IsEnforced(rows, held, later, f)
    ensures Strength(e.level) <= Strength(f.level)
  {
  }

  /** What is announced comes true on its day, with nothing left to announce, and
      not a day earlier. */
  lemma AnnouncementComesTrue(rows: seq<Row>, held: set<PolicyRole>, today: int, day: int, e: Requirement, u: Requirement,
                              f: Requirement, v: Option<Requirement>)
    requires IsEnforced(rows, held, today, e) && IsUpcoming(rows, held, today, e.level, Some(u))
    requires today <= day && IsEnforced(rows, held, day, f) && IsUpcoming(rows, held, day, f.level, v)
    ensures today < u.requiredFrom.value
    ensures day < u.requiredFrom.value ==> Strength(f.level) < Strength(u.level)
    ensures u.requiredFrom.value <= day ==> f.level == u.level && v == None
  {
  }

  // ------------------------------------------------------------ who holds what

  datatype OrganisationRole = BoardRole | AdminRole | ReviewerRole
  datatype TeamRole = ChampionRole | MentorRole

  /** `reviews` is whether the account has the review permission, `teams` the roles of
      its active team memberships. */
  datatype Person = Person(authenticated: bool, adult: bool, superuser: bool, reviews: bool,
                           organisation: set<OrganisationRole>, teams: set<TeamRole>)

  predicate Holds(p: Person, role: PolicyRole) {
    && p.authenticated && p.adult
    && match role
       case AnyAdult => true
       case Superuser => p.superuser
       case Reviewer => p.reviews
       case OrganisationAdmin => AdminRole in p.organisation
       case OrganisationBoard => BoardRole in p.organisation
       case Champion => ChampionRole in p.teams
       case Mentor => MentorRole in p.teams
  }

  /** Only a logged-in adult holds a policy role at all; one always holds the role of any
      adult, and the others by what the site knows of the account. */
  lemma HoldsExactly(p: Person, role: PolicyRole)
    ensures Holds(p, role) ==> p.authenticated && p.adult
    ensures p.authenticated && p.adult ==>
              && Holds(p, AnyAdult) && (Holds(p, Superuser) <==> p.superuser) && (Holds(p, Reviewer) <==> p.reviews)
              && (Holds(p, OrganisationAdmin) <==> AdminRole in p.organisation)
              && (Holds(p, OrganisationBoard) <==> BoardRole in p.organisation)
              && (Holds(p, Champion) <==> ChampionRole in p.teams) && (Holds(p, Mentor) <==> MentorRole in p.teams)
  {
  }

  /** `held` has come to hold these roles of `among`. */
  ghost predicate Collected(p: Person, among: set<PolicyRole>, looked: set<PolicyRole>, held: set<PolicyRole>) {
    forall role :: role in held <==> role in looked && role in among && Holds(p, role)
  }

  /** Asking only for the roles the policy mentions loses none of them. */
  method RolesOf(p: Person, among: set<PolicyRole>) returns (held: set<PolicyRole>)
    ensures forall role :: role in held <==> role in among && Holds(p, role)
  {
    held := {};
    if !p.authenticated || !p.adult {
      return;
    }
    if AnyAdult in among {
      held := held + {AnyAdult};
    }
    if Superuser in among && p.superuser {
      held := held + {Superuser};
    }
    if Reviewer in among && p.reviews {
      held := held + {Reviewer};
    }
    assert Collected(p, among, {AnyAdult, Superuser, Reviewer}, held);
    if OrganisationAdmin in among || OrganisationBoard in among {
      held := AddOrganisation(p, among, held);
    }
    assert Collected(p, among, {AnyAdult, Superuser, Reviewer, OrganisationAdmin, OrganisationBoard}, held);
    if Champion in among || Mentor in among {
      held := AddTeams(p, among, held);
    }
    assert Collected(p, among, {AnyAdult, Superuser, Reviewer, OrganisationAdmin, OrganisationBoard, Champion, Mentor}, held);
  }

  method AddOrganisation(p: Person, among: set<PolicyRole>, before: set<PolicyRole>) returns (held: set<PolicyRole>)
    requires p.authenticated && p.adult
    ensures forall role :: role in held <==> role in before || (role in {OrganisationAdmin, OrganisationBoard} && role in among && Holds(p, role))
  {
    held := before;
    if OrganisationAdmin in among && AdminRole in p.organisation {
      held := held + {OrganisationAdmin};
    }
    if OrganisationBoard in among && BoardRole in p.organisation {
      held := held + {OrganisationBoard};
    }
  }

  method AddTeams(p: Person, among: set<PolicyRole>, before: set<PolicyRole>) returns (held: set<PolicyRole>)
    requires p.authenticated && p.adult
    ensures forall role :: role in held <==> role in before || (role in {Champion, Mentor} && role in among && Holds(p, role))
  {
    held := before;
    if Champion in among && ChampionRole in p.teams {
      held := held + {Champion};
    }
    if Mentor in among && MentorRole in p.teams {
      held := held + {Mentor};
    }
  }

  /** Two sets of held roles that agree on the roles with a row get the same answer. */
  lemma {:induction false} OnlyPolicyRolesMatter(rows: seq<Row>, held: set<PolicyRole>, other: set<PolicyRole>, today: int, level: Level)
    requires forall i :: 0 <= i < |rows| ==> (rows[i].role in held <==> rows[i].role in other)
    ensures RolesNow(rows, held, today, level) == RolesNow(rows, other, today, level)
    ensures RolesLater(rows, held, today, level) == RolesLater(rows, other, today, level)
  {
    if rows == [] {
    } else {
      OnlyPolicyRolesMatter(rows[..|rows| - 1], held, other, today, level);
    }
  }

  // ------------------------------------------------------------------- status

  datatype Status = OK | NeedsSetup | NeedsVerify

  function StatusOf(isOn: bool, hasPasskey: bool, verified: bool, level: Level): Status {
    if level == Password then OK
    else if !(if level == Passkey then hasPasskey else isOn) then NeedsSetup
    else if verified then OK else NeedsVerify
  }

  /** What a level asks the account to have. */
  predicate HasWhatItAsks(isOn: bool, hasPasskey: bool, level: Level) {
    match level
    case Password => true
    case TwoStep => isOn
    case Passkey => hasPasskey
  }

  /** A session meets its level exactly if that is a password, or the account has what
      the level asks and the session used it; without that it has to be set up first. */
  lemma StatusExactly(isOn: bool, hasPasskey: bool, verified: bool, level: Level)
    ensures var status := StatusOf(isOn, hasPasskey, verified, level);
            && (status == OK <==> level == Password || (verified && HasWhatItAsks(isOn, hasPasskey, level)))
            && (status == NeedsSetup <==> !HasWhatItAsks(isOn, hasPasskey, level))
            && (status == NeedsVerify <==> level != Password && !verified && HasWhatItAsks(isOn, hasPasskey, level))
  {
  }

  /** An account that meets a level meets every weaker one. */
  lemma StrongerMeetsWeaker(isOn: bool, hasPasskey: bool, verified: bool, level: Level, weaker: Level)
    requires hasPasskey ==> isOn
    requires Strength(weaker) <= Strength(level) && StatusOf(isOn, hasPasskey, verified, level) == OK
    ensures StatusOf(isOn, hasPasskey, verified, weaker) == OK
  {
  }
}

/** The guardians of one child: inviting, accepting, withdrawing and removing
    (accounts/guardian_invitations.py). Addresses are taken as already stripped and
    lower-cased; times are seconds. */
module Guardians {
  import opened Basics

  const DAY := 86_400
  const VALID_DAYS := 14
  const KEEP_DAYS := 30
  const THROTTLE_SECONDS := 60

  datatype Relation = Parent | LegalGuardian | Other

  predicate Responsible(r: Relation) {
    r == Parent || r == LegalGuardian
  }

  type UserId = nat
  type Address = string

  datatype AccountType = Adult | Ninja | Service

  datatype Account = Account(email: Address, kind: AccountType, active: bool)

  datatype Link = Link(guardian: UserId, relation: Relation)

  /** `token` is the opaque secret in the invitation's link, of which the row keeps a hash. */
  datatype Invitation = Invitation(
    email: Address, relation: Relation, invitedBy: UserId, createdAt: int, expiresAt: int,
    acceptedAt: Option<int>, acceptedBy: Option<UserId>, withdrawnAt: Option<int>, token: nat)

  /** Links and invitations are numbered, and neither a number nor a token is used
      twice. `throttle` is until when an adult has to wait before inviting again, for
      this child or another. */
  datatype State = State(
    now: int, accounts: map<UserId, Account>, links: map<nat, Link>, nextLink: nat,
    invitations: map<nat, Invitation>, nextInvitation: nat, nextToken: nat, throttle: map<UserId, int>)

  datatype Error =
    | NotResponsible | BadAddress | BadRelation | OwnAddress | ChildsLogin | AlreadyGuardian | AlreadyInvited | TooSoon
    | AlreadyOver | NotWaiting | NotValid | AnotherAddress | OnlyResponsible

  datatype Result = Ok(state: State) | Err(error: Error)

  // ------------------------------------------------------------- the checks

  predicate IsGuardian(s: State, u: UserId) {
    exists l :: l in s.links && s.links[l].guardian == u
  }

  /** Link `l` makes `u` a parent or legal guardian of the child. */
  predicate HoldsBy(s: State, u: UserId, l: nat) {
    l in s.links && s.links[l].guardian == u && Responsible(s.links[l].relation)
  }

  predicate IsResponsible(s: State, u: UserId) {
    exists l :: l in s.links && HoldsBy(s, u, l)
  }

  predicate IsPending(i: Invitation, now: int) {
    i.acceptedAt == None && i.withdrawnAt == None && now < i.expiresAt
  }

  predicate Waiting(s: State, email: Address) {
    exists i :: i in s.invitations && s.invitations[i].email == email && IsPending(s.invitations[i], s.now)
  }

  predicate StillValid(s: State, i: Invitation) {
    IsPending(i, s.now) && IsResponsible(s, i.invitedBy)
  }

  predicate CanAccept(s: State, i: Invitation, u: UserId)
    requires u in s.accounts
  {
    && StillValid(s, i)
    && s.accounts[u].active && s.accounts[u].kind == Adult
    && s.accounts[u].email == i.email
    && !IsGuardian(s, u)
  }

  /** `existing` is what looking an account up by this address may give. */
  predicate Found(s: State, email: Address, existing: Option<UserId>) {
    match existing
    case None => forall u :: u in s.accounts ==> s.accounts[u].email != email
    case Some(u) => u in s.accounts && s.accounts[u].email == email
  }

  predicate Throttled(s: State, u: UserId) {
    u in s.throttle && s.now < s.throttle[u]
  }

  function Throttle(s: State, u: UserId): State {
    s.(throttle := s.throttle[u := s.now + THROTTLE_SECONDS])
  }

  // ---------------------------------------------------------- the operations

  /** No `relation`: what was chosen is none of the choices. */
  function Invite(s: State, email: Address, wellFormed: bool, relation: Option<Relation>, by': UserId, existing: Option<UserId>): Result
    requires by' in s.accounts && Found(s, email, existing)
  {
    if !IsResponsible(s, by') then Err(NotResponsible)
    else if !wellFormed then Err(BadAddress)
    else if relation == None then Err(BadRelation)
    else if email == s.accounts[by'].email then Err(OwnAddress)
    else if existing.Some? && s.accounts[existing.value].kind == Ninja then Err(ChildsLogin)
    else if existing.Some? && IsGuardian(s, existing.value) then Err(AlreadyGuardian)
    else if Waiting(s, email) then Err(AlreadyInvited)
    else if Throttled(s, by') then Err(TooSoon)
    else
      var i := Invitation(email, relation.value, by', s.now, s.now + VALID_DAYS * DAY, None, None, None, s.nextToken);
      Ok(Throttle(s, by').(invitations := s.invitations[s.nextInvitation := i],
                           nextInvitation := s.nextInvitation + 1, nextToken := s.nextToken + 1))
  }

  function Resend(s: State, i: nat, by': UserId): Result
    requires i in s.invitations
  {
    if !IsResponsible(s, by') then Err(NotResponsible)
    else if s.invitations[i].acceptedAt.Some? || s.invitations[i].withdrawnAt.Some? then Err(AlreadyOver)
    else if Throttled(s, by') then Err(TooSoon)
    else
      var again := s.invitations[i].(token := s.nextToken, expiresAt := s.now + VALID_DAYS * DAY);
      Ok(Throttle(s, by').(invitations := s.invitations[i := again], nextToken := s.nextToken + 1))
  }

  function Withdraw(s: State, i: nat, by': UserId): Result
    requires i in s.invitations
  {
    if !IsResponsible(s, by') then Err(NotResponsible)
    else if !IsPending(s.invitations[i], s.now) then Err(NotWaiting)
    else Ok(s.(invitations := s.invitations[i := s.invitations[i].(withdrawnAt := Some(s.now))]))
  }

  function Accept(s: State, i: nat, u: UserId): Result
    requires i in s.invitations && u in s.accounts
  {
    var inv := s.invitations[i];
    if !StillValid(s, inv) then Err(NotValid)
    else if !CanAccept(s, inv, u) then Err(AnotherAddress)
    else Ok(s.(links := s.links[s.nextLink := Link(u, inv.relation)], nextLink := s.nextLink + 1,
               invitations := s.invitations[i := inv.(acceptedAt := Some(s.now), acceptedBy := Some(u))]))
  }

  function RemovalProblem(s: State, l: nat, by': UserId): Option<Error>
    requires l in s.links
  {
    if s.links[l].guardian != by' && !IsResponsible(s, by') then Some(NotResponsible)
    else if Responsible(s.links[l].relation) && !exists m :: m in s.links && m != l && Responsible(s.links[m].relation)
      then Some(OnlyResponsible)
    else None
  }

  function Remove(s: State, l: nat, by': UserId): Result
    requires l in s.links
  {
    var problem := RemovalProblem(s, l, by');
    if problem.Some? then Err(problem.value) else Ok(s.(links := s.links - {l}))
  }

  predicate IsOld(i: Invitation, cutoff: int) {
    || (i.acceptedAt.Some? && i.acceptedAt.value < cutoff)
    || (i.withdrawnAt.Some? && i.withdrawnAt.value < cutoff)
    || i.expiresAt < cutoff
  }

  /** The retention job. */
  function RemoveOld(s: State): State {
    var cutoff := s.now - KEEP_DAYS * DAY;
    s.(invitations := map i | i in s.invitations && !IsOld(s.invitations[i], cutoff) :: s.invitations[i])
  }

  // --------------------------------------------------------------- every run

  /** `Change` is what happens to an account elsewhere: made, switched on or off, or
      its address changed. `Elsewhere` is an invitation the adult sends for another
      child, `Forget` the cache dropping the wait. */
  datatype Step =
    | DoInvite(email: Address, wellFormed: bool, relation: Option<Relation>, by': UserId, existing: Option<UserId>)
    | DoResend(i: nat, by': UserId)
    | DoWithdraw(i: nat, by': UserId)
    | DoAccept(i: nat, u: UserId)
    | DoRemove(l: nat, by': UserId)
    | DoRemoveOld
    | Tick(length: nat)
    | Change(u: UserId, account: Account)
    | Elsewhere(u: UserId)
    | Forget(u: UserId)

  predicate Enabled(s: State, step: Step) {
    match step
    case DoInvite(email, wellFormed, relation, by', existing) =>
      by' in s.accounts && Found(s, email, existing) && Invite(s, email, wellFormed, relation, by', existing).Ok?
    case DoResend(i, by') => i in s.invitations && Resend(s, i, by').Ok?
    case DoWithdraw(i, by') => i in s.invitations && Withdraw(s, i, by').Ok?
    case DoAccept(i, u) => i in s.invitations && u in s.accounts && Accept(s, i, u).Ok?
    case DoRemove(l, by') => l in s.links && Remove(s, l, by').Ok?
    case DoRemoveOld => true
    case Tick(_) => true
    case Change(_, _) => true
    case Elsewhere(_) => true
    case Forget(_) => true
  }

  /** What the runs range over: time passes, accounts change, adults invite for other
      children, and the clean-up comes, at any moment. */
  lemma AnythingMayHappen(s: State, u: UserId, account: Account, length: nat)
    ensures Enabled(s, Tick(length)) && Enabled(s, Change(u, account)) && Enabled(s, DoRemoveOld)
    ensures Enabled(s, Elsewhere(u)) && Enabled(s, Forget(u))
  {
  }

  function Apply(s: State, step: Step): State
    requires Enabled(s, step)
  {
    match step
    case DoInvite(email, wellFormed, relation, by', existing) => Invite(s, email, wellFormed, relation, by', existing).state
    case DoResend(i, by') => Resend(s, i, by').state
    case DoWithdraw(i, by') => Withdraw(s, i, by').state
    case DoAccept(i, u) => Accept(s, i, u).state
    case DoRemove(l, by') => Remove(s, l, by').state
    case DoRemoveOld => RemoveOld(s)
    case Tick(length) => s.(now := s.now + length)
    case Change(u, account) => s.(accounts := s.accounts[u := account])
    case Elsewhere(u) => Throttle(s, u)
    case Forget(u) => s.(throttle := s.throttle - {u})
  }

  /** A run: `states[k]` is where step `k` is taken. */
  ghost predicate Run(states: seq<State>, steps: seq<Step>) {
    && |states| == |steps| + 1
    && forall k :: 0 <= k < |steps| ==> Enabled(states[k], steps[k]) && states[k + 1] == Apply(states[k], steps[k])
  }

  ghost predicate Kept(s: State) {
    exists l :: l in s.links && Responsible(s.links[l].relation)
  }

  ghost predicate NoDoubles(s: State) {
    forall l, m :: l in s.links && m in s.links && l != m ==> s.links[l].guardian != s.links[m].guardian
  }

  ghost predicate Numbered(s: State) {
    && (forall l :: l in s.links ==> l < s.nextLink)
    && (forall i :: i in s.invitations ==> i < s.nextInvitation && s.invitations[i].token < s.nextToken)
    && (forall i, j :: i in s.invitations && j in s.invitations && i != j ==> s.invitations[i].token != s.invitations[j].token)
  }

  ghost predicate Inv(s: State) {
    Kept(s) && NoDoubles(s) && Numbered(s)
  }

  lemma AcceptKeeps(s: State, i: nat, u: UserId)
    requires Inv(s) && i in s.invitations && u in s.accounts && Accept(s, i, u).Ok?
    ensures Inv(Accept(s, i, u).state)
  {
    var l :| l in s.links && Responsible(s.links[l].relation);
    assert Accept(s, i, u).state.links[l] == s.links[l];
  }

  lemma RemoveKeeps(s: State, l: nat, by': UserId)
    requires Inv(s) && l in s.links && Remove(s, l, by').Ok?
    ensures Inv(Remove(s, l, by').state)
  {
    var t := Remove(s, l, by').state;
    var m :| m in s.links && Responsible(s.links[m].relation);
    if m == l {
      var o :| o in s.links && o != l && Responsible(s.links[o].relation);
      assert o in t.links;
    } else {
      assert m in t.links;
    }
  }

  lemma NewTokenKept(s: State, step: Step)
    requires Numbered(s) && Enabled(s, step) && (step.DoInvite? || step.DoResend?)
    ensures Numbered(Apply(s, step))
  {
  }

  lemma NumbersKept(s: State, step: Step)
    requires Numbered(s) && Enabled(s, step)
    ensures Numbered(Apply(s, step))
  {
    match step {
      case DoInvite(_, _, _, _, _) => NewTokenKept(s, step);
      case DoResend(_, _) => NewTokenKept(s, step);
      case DoWithdraw(_, _) =>
      case DoAccept(_, _) =>
      case DoRemove(_, _) =>
      case DoRemoveOld =>
      case Tick(_) =>
      case Change(_, _) =>
      case Elsewhere(_) =>
      case Forget(_) =>
    }
  }

  lemma StepKeeps(s: State, step: Step)
    requires Inv(s) && Enabled(s, step)
    ensures Inv(Apply(s, step))
  {
    match step {
      case DoAccept(i, u) => AcceptKeeps(s, i, u);
      case DoRemove(l, by') => RemoveKeeps(s, l, by');
      case _ =>
        NumbersKept(s, step);
        assert Apply(s, step).links == s.links;
    }
  }

  lemma {:induction false} Always(states: seq<State>, steps: seq<Step>, m: nat)
    requires Run(states, steps) && Inv(states[0]) && m <= |steps|
    ensures Inv(states[m])
  {
    if m == 0 {
    } else {
      Always(states, steps, m - 1);
      StepKeeps(states[m - 1], steps[m - 1]);
    }
  }

  /** A child as it is first known: its links, no invitation yet. */
  ghost predicate Initial(s: State) {
    s.invitations == map[] && Inv(s)
  }

  /** Whatever happens, a child that starts with a parent or legal guardian has one
      at every moment, and is never linked twice to the same adult. */
  lemma {:induction false} NeverWithoutGuardian(states: seq<State>, steps: seq<Step>)
    requires Run(states, steps) && Initial(states[0])
    ensures forall m :: 0 <= m <= |steps| ==> Kept(states[m]) && NoDoubles(states[m])
  {
    forall m | 0 <= m <= |steps| ensures Kept(states[m]) && NoDoubles(states[m]) {
      Always(states, steps, m);
    }
  }

  // -------------------------------------------------------- where links come from

  /** What is linked at `t` and had its number at `s` was linked at `s`, and the same. */
  ghost predicate KeepsLinks(s: State, t: State) {
    && s.nextLink <= t.nextLink
    && forall l :: l in t.links && l < s.nextLink ==> l in s.links && s.links[l] == t.links[l]
  }

  lemma LinksStep(s: State, step: Step)
    requires Numbered(s) && Enabled(s, step)
    ensures Apply(s, step).nextLink == s.nextLink + (if step.DoAccept? then 1 else 0)
    ensures KeepsLinks(s, Apply(s, step))
  {
  }

  lemma LinksTwice(s: State, t: State, u: State)
    requires KeepsLinks(s, t) && KeepsLinks(t, u)
    ensures KeepsLinks(s, u)
  {
  }

  ghost predicate KeepsEach(states: seq<State>) {
    forall k :: 0 <= k < |states| - 1 ==> KeepsLinks(states[k], states[k + 1])
  }

  lemma {:induction false} KeepsAll(states: seq<State>, j: nat, m: nat)
    requires KeepsEach(states) && j <= m < |states|
    ensures KeepsLinks(states[j], states[m])
    decreases m
  {
    if m == j {
    } else {
      KeepsAll(states, j, m - 1);
      assert KeepsLinks(states[m - 1], states[m - 1 + 1]);
      LinksTwice(states[j], states[m - 1], states[m]);
    }
  }

  /** Over every run links are only added or removed. */
  lemma {:induction false} LinksNeverChange(states: seq<State>, steps: seq<Step>, j: nat, m: nat)
    requires Run(states, steps) && Inv(states[0]) && j <= m <= |steps|
    ensures KeepsLinks(states[j], states[m])
  {
    forall k | 0 <= k < |states| - 1 ensures KeepsLinks(states[k], states[k + 1]) {
      Always(states, steps, k);
      LinksStep(states[k], steps[k]);
    }
    KeepsAll(states, j, m);
  }

  /** Step `k` accepts an invitation and thereby makes link `l`. */
  ghost predicate BornAt(states: seq<State>, steps: seq<Step>, k: nat, l: nat)
    requires Run(states, steps)
  {
    k < |steps| && steps[k].DoAccept? && states[k].nextLink == l
  }

  /** A run creates links only by accepted invitations. */
  lemma {:induction false} OnlyByInvitation(states: seq<State>, steps: seq<Step>, m: nat, l: nat)
    requires Run(states, steps) && Inv(states[0]) && m <= |steps| && states[0].nextLink <= l < states[m].nextLink
    ensures exists k: nat :: k < m && BornAt(states, steps, k, l)
  {
    if m == 0 {
    } else if l < states[m - 1].nextLink {
      OnlyByInvitation(states, steps, m - 1, l);
    } else {
      Always(states, steps, m - 1);
      LinksStep(states[m - 1], steps[m - 1]);
      assert BornAt(states, steps, m - 1, l);
    }
  }

  /** At step `j` invitation `i` was sent to this address for this relation, by
      somebody who was a parent or legal guardian of the child at that moment. */
  ghost predicate InvitedAt(states: seq<State>, steps: seq<Step>, j: nat, i: nat, email: Address, relation: Relation, sender: UserId)
    requires Run(states, steps)
  {
    && j < |steps| && states[j].nextInvitation == i
    && Invites(steps[j], email, relation, sender) && IsResponsible(states[j], sender)
  }

  ghost predicate Invites(step: Step, email: Address, relation: Relation, sender: UserId) {
    step.DoInvite? && step.email == email && step.relation == Some(relation) && step.by' == sender
  }

  lemma NewRow(s: State, step: Step, i: nat)
    requires Enabled(s, step) && i !in s.invitations && i in Apply(s, step).invitations
    ensures var row := Apply(s, step).invitations[i];
            s.nextInvitation == i && Invites(step, row.email, row.relation, row.invitedBy) && IsResponsible(s, row.invitedBy)
  {
  }

  ghost predicate SameOffer(row: Invitation, later: Invitation) {
    later.email == row.email && later.relation == row.relation && later.invitedBy == row.invitedBy
  }

  /** Whatever happens to an invitation, its address, relation and sender stay; and
      once accepted it does not change at all. */
  lemma RowStays(s: State, step: Step, i: nat)
    requires Enabled(s, step) && i in s.invitations && i in Apply(s, step).invitations && i < s.nextInvitation
    ensures SameOffer(s.invitations[i], Apply(s, step).invitations[i])
    ensures s.invitations[i].acceptedAt.Some? ==> Apply(s, step).invitations[i] == s.invitations[i]
  {
  }

  /** And the number of a row that is gone is not used again. */
  lemma AcceptedRowStays(s: State, step: Step, i: nat, row: Invitation)
    requires Enabled(s, step) && i < s.nextInvitation && row.acceptedAt.Some?
    requires i in s.invitations ==> s.invitations[i] == row
    ensures i < Apply(s, step).nextInvitation
    ensures i in Apply(s, step).invitations ==> Apply(s, step).invitations[i] == row
  {
    if i in s.invitations && i in Apply(s, step).invitations { RowStays(s, step, i); }
  }

  lemma {:induction false} WasInvited(states: seq<State>, steps: seq<Step>, m: nat, i: nat)
    requires Run(states, steps) && Initial(states[0]) && m <= |steps| && i in states[m].invitations
    ensures var row := states[m].invitations[i];
            exists j: nat :: j < m && InvitedAt(states, steps, j, i, row.email, row.relation, row.invitedBy)
  {
    if m == 0 {
    } else if i in states[m - 1].invitations {
      Always(states, steps, m - 1);
      WasInvited(states, steps, m - 1, i);
      RowStays(states[m - 1], steps[m - 1], i);
      assert SameOffer(states[m - 1].invitations[i], states[m].invitations[i]);
    } else {
      NewRow(states[m - 1], steps[m - 1], i);
      var row := states[m].invitations[i];
      assert InvitedAt(states, steps, m - 1, i, row.email, row.relation, row.invitedBy);
    }
  }

  ghost predicate Accepts(s: State, row: Invitation, u: UserId) {
    && u in s.accounts && s.accounts[u] == Account(row.email, Adult, true) && !IsGuardian(s, u)
    && IsPending(row, s.now)
  }

  /** An acceptance: pending, by the invited address, the sender still responsible. */
  lemma AcceptSpec(s: State, step: Step)
    requires Enabled(s, step) && step.DoAccept?
    ensures var row := s.invitations[step.i];
            && Accepts(s, row, step.u) && IsResponsible(s, row.invitedBy)
            && Apply(s, step).links == s.links[s.nextLink := Link(step.u, row.relation)]
            && Apply(s, step).invitations == s.invitations[step.i := AcceptedRow(s, step)]
            && Apply(s, step).nextInvitation == s.nextInvitation
  {
  }

  function AcceptedRow(s: State, step: Step): Invitation
    requires step.DoAccept? && step.i in s.invitations
  {
    s.invitations[step.i].(acceptedAt := Some(s.now), acceptedBy := Some(step.u))
  }

  /** Step `k` makes link `child`: the account with the invited address accepts an
      invitation that is pending then, sent at step `j` by a parent or legal guardian,
      who at step `k` still is one, through link `parent`. */
  ghost predicate SponsoredAt(states: seq<State>, steps: seq<Step>, j: nat, k: nat, child: nat, parent: nat)
    requires Run(states, steps)
  {
    && j < k && BornAt(states, steps, k, child)
    && var i, u := steps[k].i, steps[k].u;
       && i in states[k].invitations && u in states[k].accounts
       && var row := states[k].invitations[i];
          && InvitedAt(states, steps, j, i, row.email, row.relation, row.invitedBy)
          && HoldsBy(states[k], row.invitedBy, parent)
          && Accepts(states[k], row, u)
          && states[k + 1].links == states[k].links[child := Link(u, row.relation)]
  }

  ghost predicate Sponsored(states: seq<State>, steps: seq<Step>, child: nat, parent: nat)
    requires Run(states, steps)
  {
    exists j: nat, k: nat :: SponsoredAt(states, steps, j, k, child, parent)
  }

  /** A parent's or legal guardian's link of the initial state, or a later link. */
  ghost predicate OldOrNew(states: seq<State>, l: nat)
    requires states != []
  {
    l < states[0].nextLink ==> l in states[0].links && Responsible(states[0].links[l].relation)
  }

  lemma {:induction false} ParentIsOldOrNew(states: seq<State>, steps: seq<Step>, k: nat, l: nat)
    requires Run(states, steps) && Inv(states[0]) && k <= |steps|
    requires l in states[k].links && Responsible(states[k].links[l].relation)
    ensures l < states[k].nextLink && OldOrNew(states, l)
  {
    Always(states, steps, k);
    LinksNeverChange(states, steps, 0, k);
  }

  lemma {:induction false} BirthIsSponsored(states: seq<State>, steps: seq<Step>, k: nat, child: nat)
    requires Run(states, steps) && Initial(states[0]) && BornAt(states, steps, k, child)
    ensures exists parent: nat :: parent < child && OldOrNew(states, parent) && Sponsored(states, steps, child, parent)
  {
    var i := steps[k].i;
    WasInvited(states, steps, k, i);
    var row := states[k].invitations[i];
    var j: nat :| j < k && InvitedAt(states, steps, j, i, row.email, row.relation, row.invitedBy);
    AcceptSpec(states[k], steps[k]);
    var parent :| parent in states[k].links && HoldsBy(states[k], row.invitedBy, parent);
    ParentIsOldOrNew(states, steps, k, parent);
    assert SponsoredAt(states, steps, j, k, child, parent);
  }

  lemma {:induction false} LinkIsSponsored(states: seq<State>, steps: seq<Step>, l: nat)
    requires Run(states, steps) && Initial(states[0])
    requires states[0].nextLink <= l < states[|steps|].nextLink
    ensures exists parent: nat :: parent < l && OldOrNew(states, parent) && Sponsored(states, steps, l, parent)
  {
    OnlyByInvitation(states, steps, |steps|, l);
    var k: nat :| k < |steps| && BornAt(states, steps, k, l);
    BirthIsSponsored(states, steps, k, l);
  }

  /** A chain of links, each sponsored by the next, back to a parent or legal guardian
      the child had at the start. */
  ghost predicate TracesBack(states: seq<State>, steps: seq<Step>, chain: seq<nat>)
    requires Run(states, steps)
  {
    && |chain| > 1
    && (forall n :: 0 <= n < |chain| - 1 ==> Sponsored(states, steps, chain[n], chain[n + 1]))
    && chain[|chain| - 1] in states[0].links && Responsible(states[0].links[chain[|chain| - 1]].relation)
  }

  /** Link `l` is where such a chain begins. */
  ghost predicate Traced(states: seq<State>, steps: seq<Step>, l: nat)
    requires Run(states, steps)
  {
    exists chain :: TracesBack(states, steps, chain) && chain[0] == l
  }

  /** Every link a run creates traces back, through invitations whose senders were
      parents or legal guardians both when they invited and when the invitation was
      accepted, to a parent or legal guardian of the initial state. */
  lemma {:induction false} EveryLinkIsSponsored(states: seq<State>, steps: seq<Step>, l: nat)
    requires Run(states, steps) && Initial(states[0])
    requires states[0].nextLink <= l < states[|steps|].nextLink
    ensures Traced(states, steps, l)
    decreases l
  {
    LinkIsSponsored(states, steps, l);
    var parent: nat :| parent < l && OldOrNew(states, parent) && Sponsored(states, steps, l, parent);
    if parent < states[0].nextLink {
      StartOfChain(states, steps, l, parent);
    } else {
      EveryLinkIsSponsored(states, steps, parent);
      Prepend(states, steps, l, parent);
    }
  }

  lemma StartOfChain(states: seq<State>, steps: seq<Step>, l: nat, parent: nat)
    requires Run(states, steps) && Sponsored(states, steps, l, parent)
    requires parent < states[0].nextLink && OldOrNew(states, parent)
    ensures Traced(states, steps, l)
  {
    assert TracesBack(states, steps, [l, parent]);
  }

  lemma Prepend(states: seq<State>, steps: seq<Step>, l: nat, parent: nat)
    requires Run(states, steps) && Traced(states, steps, parent) && Sponsored(states, steps, l, parent)
    ensures Traced(states, steps, l)
  {
    var chain :| TracesBack(states, steps, chain) && chain[0] == parent;
    var longer := [l] + chain;
    forall n | 0 <= n < |longer| - 1 ensures Sponsored(states, steps, longer[n], longer[n + 1]) {
      if n > 0 { assert Sponsored(states, steps, chain[n - 1], chain[n]); }
    }
    assert TracesBack(states, steps, longer);
  }

  /** As long as its row is kept, an accepted invitation says who accepted it when. */
  lemma {:induction false} AcceptedStays(states: seq<State>, steps: seq<Step>, k: nat, m: nat)
    requires Run(states, steps) && Inv(states[0]) && k < m <= |steps| && steps[k].DoAccept?
    ensures steps[k].i < states[m].nextInvitation
    ensures steps[k].i in states[m].invitations ==> states[m].invitations[steps[k].i] == AcceptedRow(states[k], steps[k])
    decreases m
  {
    Always(states, steps, m - 1);
    if m == k + 1 {
      AcceptSpec(states[k], steps[k]);
    } else {
      AcceptedStays(states, steps, k, m - 1);
      AcceptedRowStays(states[m - 1], steps[m - 1], steps[k].i, AcceptedRow(states[k], steps[k]));
    }
  }

  /** No invitation makes two links. */
  lemma {:induction false} AcceptedOnce(states: seq<State>, steps: seq<Step>, k: nat, m: nat)
    requires Run(states, steps) && Inv(states[0]) && k < m < |steps| && steps[k].DoAccept? && steps[m].DoAccept?
    ensures steps[k].i != steps[m].i
  {
    AcceptedStays(states, steps, k, m);
  }

  // ---------------------------------------------------- invitations that wait

  /** No two invitations for one address wait at once. */
  ghost predicate OneEach(s: State) {
    forall i, j :: i in s.invitations && j in s.invitations && i != j && s.invitations[i].email == s.invitations[j].email ==>
      !IsPending(s.invitations[i], s.now) || !IsPending(s.invitations[j], s.now)
  }

  /** Sending an invitation again while another one waits at the same address. */
  ghost predicate Revives(s: State, step: Step) {
    && step.DoResend? && step.i in s.invitations
    && exists j :: j in s.invitations && j != step.i && s.invitations[j].email == s.invitations[step.i].email &&
         IsPending(s.invitations[j], s.now)
  }

  lemma OneEachResend(s: State, step: Step)
    requires Numbered(s) && OneEach(s) && Enabled(s, step) && step.DoResend?
    ensures OneEach(Apply(s, step)) <==> !Revives(s, step)
  {
    var t := Apply(s, step);
    assert t.invitations == s.invitations[step.i := t.invitations[step.i]];
    if Revives(s, step) {
      var j :| j in s.invitations && j != step.i && s.invitations[j].email == s.invitations[step.i].email &&
        IsPending(s.invitations[j], s.now);
      assert IsPending(t.invitations[step.i], t.now) && t.invitations[j] == s.invitations[j];
    }
  }

  lemma OneEachInvite(s: State, step: Step)
    requires Numbered(s) && OneEach(s) && Enabled(s, step) && step.DoInvite?
    ensures OneEach(Apply(s, step))
  {
    assert !Waiting(s, step.email);
  }

  lemma OneEachOtherwise(s: State, step: Step)
    requires Numbered(s) && OneEach(s) && Enabled(s, step) && !step.DoResend? && !step.DoInvite?
    ensures OneEach(Apply(s, step))
  {
  }

  /** That is the one way to two waiting invitations for an address. */
  lemma OneEachExactly(s: State, step: Step)
    requires Numbered(s) && OneEach(s) && Enabled(s, step)
    ensures OneEach(Apply(s, step)) <==> !Revives(s, step)
  {
    if step.DoResend? {
      OneEachResend(s, step);
    } else if step.DoInvite? {
      OneEachInvite(s, step);
    } else {
      OneEachOtherwise(s, step);
    }
  }

  /** Over every run: two invitations for one address never wait at once if and only
      if none is sent again while another waits. */
  lemma {:induction false} OneEachAlways(states: seq<State>, steps: seq<Step>)
    requires Run(states, steps) && Initial(states[0])
    ensures (forall m :: 0 <= m <= |steps| ==> OneEach(states[m])) <==>
            (forall k :: 0 <= k < |steps| ==> !Revives(states[k], steps[k]))
  {
    if forall m :: 0 <= m <= |steps| ==> OneEach(states[m]) {
      forall k | 0 <= k < |steps| ensures !Revives(states[k], steps[k]) {
        Always(states, steps, k);
        assert OneEach(states[k + 1]);
        OneEachExactly(states[k], steps[k]);
      }
    }
    if forall k :: 0 <= k < |steps| ==> !Revives(states[k], steps[k]) {
      forall m | 0 <= m <= |steps| ensures OneEach(states[m]) {
        OneEachUpTo(states, steps, m);
      }
    }
  }

  lemma {:induction false} OneEachUpTo(states: seq<State>, steps: seq<Step>, m: nat)
    requires Run(states, steps) && Initial(states[0]) && m <= |steps|
    requires forall k :: 0 <= k < m ==> !Revives(states[k], steps[k])
    ensures OneEach(states[m])
  {
    if m == 0 {
    } else {
      OneEachUpTo(states, steps, m - 1);
      Always(states, steps, m - 1);
      OneEachExactly(states[m - 1], steps[m - 1]);
    }
  }

  ghost predicate Opens(s: State, token: nat, i: nat) {
    i in s.invitations && s.invitations[i].token == token
  }

  lemma DeadLinkStep(s: State, step: Step, token: nat)
    requires Enabled(s, step) && token < s.nextToken && forall i :: !Opens(s, token, i)
    ensures token < Apply(s, step).nextToken && forall i :: !Opens(Apply(s, step), token, i)
  {
    var t := Apply(s, step);
    forall i ensures !Opens(t, token, i) {
      assert !Opens(s, token, i);
    }
  }

  /** A link that opens no invitation never opens one again. */
  lemma {:induction false} DeadLinkStaysDead(states: seq<State>, steps: seq<Step>, j: nat, m: nat, token: nat)
    requires Run(states, steps) && j <= m <= |steps| && token < states[j].nextToken
    requires forall i :: !Opens(states[j], token, i)
    ensures token < states[m].nextToken && forall i :: !Opens(states[m], token, i)
    decreases m
  {
    if m == j {
    } else {
      DeadLinkStaysDead(states, steps, j, m - 1, token);
      DeadLinkStep(states[m - 1], steps[m - 1], token);
    }
  }

  /** A new link replaces the old one: from then on the old one opens nothing. */
  lemma {:induction false} OldLinkIsDead(states: seq<State>, steps: seq<Step>, k: nat, m: nat)
    requires Run(states, steps) && Inv(states[0]) && k < m <= |steps| && steps[k].DoResend?
    ensures forall i :: !Opens(states[m], states[k].invitations[steps[k].i].token, i)
  {
    Always(states, steps, k);
    DeadLinkStaysDead(states, steps, k + 1, m, states[k].invitations[steps[k].i].token);
  }

  // ------------------------------------------------- what a withdrawal achieves

  /** Withdrawn, whether or not the row is still kept. */
  ghost predicate Withdrawn(s: State, i: nat) {
    i < s.nextInvitation && (i in s.invitations ==> s.invitations[i].withdrawnAt.Some?)
  }

  lemma WithdrawnStep(s: State, step: Step, i: nat)
    requires Withdrawn(s, i) && Enabled(s, step)
    ensures Withdrawn(Apply(s, step), i)
  {
  }

  lemma {:induction false} StaysWithdrawn(states: seq<State>, steps: seq<Step>, k: nat, m: nat, i: nat)
    requires Run(states, steps) && k <= m <= |steps| && Withdrawn(states[k], i)
    ensures Withdrawn(states[m], i)
    decreases m
  {
    if m == k {
    } else {
      StaysWithdrawn(states, steps, k, m - 1, i);
      WithdrawnStep(states[m - 1], steps[m - 1], i);
    }
  }

  lemma WithdrawSpec(s: State, i: nat, by': UserId)
    requires Numbered(s) && i in s.invitations && Withdraw(s, i, by').Ok?
    ensures Withdrawn(Withdraw(s, i, by').state, i)
  {
  }

  /** From its withdrawal on, over every run: the invitation never waits again, nobody can
      accept it, nobody can send it again, and no link comes from it. */
  lemma {:induction false} WithdrawnForGood(states: seq<State>, steps: seq<Step>, k: nat, m: nat)
    requires Run(states, steps) && Inv(states[0]) && k < m <= |steps| && steps[k].DoWithdraw?
    ensures var i, s := steps[k].i, states[m];
            && (i in s.invitations ==> !IsPending(s.invitations[i], s.now))
            && (forall u :: !Enabled(s, DoAccept(i, u))) && (forall by' :: !Enabled(s, DoResend(i, by')))
    ensures m < |steps| && steps[m].DoAccept? ==> steps[m].i != steps[k].i
  {
    Always(states, steps, k);
    WithdrawSpec(states[k], steps[k].i, steps[k].by');
    StaysWithdrawn(states, steps, k + 1, m, steps[k].i);
  }

  // ------------------------------------------------------ exactly when they succeed

  /** Not accepted, not withdrawn, and its time not over. */
  predicate Waits(i: Invitation, now: int) {
    !i.acceptedAt.Some? && !i.withdrawnAt.Some? && now < i.expiresAt
  }

  /** Any parent or legal guardian of the child can withdraw what still waits. */
  lemma WithdrawExactly(s: State, i: nat, by': UserId)
    requires i in s.invitations
    ensures Withdraw(s, i, by').Ok? <==>
              (exists l :: l in s.links && s.links[l].guardian == by' && s.links[l].relation != Other) &&
              Waits(s.invitations[i], s.now)
  {
    ResponsibleExactly(s, by');
  }

  lemma ResponsibleExactly(s: State, u: UserId)
    ensures IsResponsible(s, u) <==> exists l :: l in s.links && s.links[l].guardian == u && s.links[l].relation != Other
  {
    if IsResponsible(s, u) {
      var l :| l in s.links && HoldsBy(s, u, l);
      assert s.links[l].guardian == u && s.links[l].relation != Other;
    }
    if l :| l in s.links && s.links[l].guardian == u && s.links[l].relation != Other {
      assert HoldsBy(s, u, l);
    }
  }

  /** They can send again what was neither accepted nor withdrawn, a minute after their
      last invitation; it waits for fourteen days from then. */
  lemma ResendExactly(s: State, i: nat, by': UserId)
    requires i in s.invitations
    ensures var row := s.invitations[i];
            Resend(s, i, by').Ok? <==>
              && IsResponsible(s, by') && !row.acceptedAt.Some? && !row.withdrawnAt.Some?
              && (by' in s.throttle ==> s.throttle[by'] <= s.now)
    ensures Resend(s, i, by').Ok? ==>
              var t, row := Resend(s, i, by').state, s.invitations[i];
              && t.invitations == s.invitations[i := row.(token := s.nextToken, expiresAt := s.now + 14 * 24 * 3600)]
              && t.throttle == s.throttle[by' := s.now + 60]
              && forall later :: Waits(t.invitations[i], later) <==> later < s.now + 14 * 24 * 3600
  {
  }

  /** Looking an account up by its address gives one that has it, or nobody has it. */
  lemma FoundExactly(s: State, email: Address, u: UserId)
    ensures Found(s, email, Some(u)) <==> u in s.accounts && s.accounts[u].email == email
    ensures Found(s, email, None) <==> !exists v :: v in s.accounts && s.accounts[v].email == email
  {
  }

  /** They can invite an address that is not theirs, belongs to no child's login and to
      no guardian of the child, and has no invitation waiting; the invitation waits for
      fourteen days. */
  lemma InviteExactly(s: State, email: Address, wellFormed: bool, relation: Option<Relation>, by': UserId, existing: Option<UserId>)
    requires by' in s.accounts && Found(s, email, existing)
    ensures Invite(s, email, wellFormed, relation, by', existing).Ok? <==>
              && IsResponsible(s, by') && wellFormed && relation.Some? && s.accounts[by'].email != email
              && (existing.Some? ==> s.accounts[existing.value].kind != Ninja)
              && (existing.Some? ==> forall l :: l in s.links ==> s.links[l].guardian != existing.value)
              && (forall i :: i in s.invitations && s.invitations[i].email == email ==> !Waits(s.invitations[i], s.now))
              && (by' in s.throttle ==> s.throttle[by'] <= s.now)
    ensures Invite(s, email, wellFormed, relation, by', existing).Ok? ==>
              var t := Invite(s, email, wellFormed, relation, by', existing).state;
              var row := Invitation(email, relation.value, by', s.now, s.now + 14 * 24 * 3600, None, None, None, s.nextToken);
              && t.invitations == s.invitations[s.nextInvitation := row] && t.throttle == s.throttle[by' := s.now + 60]
              && t.links == s.links && forall later :: Waits(row, later) <==> later < s.now + 14 * 24 * 3600
  {
    if exists i :: i in s.invitations && s.invitations[i].email == email && Waits(s.invitations[i], s.now) {
      var i :| i in s.invitations && s.invitations[i].email == email && Waits(s.invitations[i], s.now);
      assert IsPending(s.invitations[i], s.now);
    }
  }

  /** An active adult with the invited address who is no guardian of the child can accept
      what still waits, while its sender is a parent or legal guardian. */
  lemma AcceptExactly(s: State, i: nat, u: UserId)
    requires i in s.invitations && u in s.accounts
    ensures var row := s.invitations[i];
            Accept(s, i, u).Ok? <==>
              && Waits(row, s.now) && IsResponsible(s, row.invitedBy)
              && s.accounts[u] == Account(row.email, Adult, true)
              && forall l :: l in s.links ==> s.links[l].guardian != u
    ensures var row := s.invitations[i];
            Accept(s, i, u) == Err(NotValid) <==> !(Waits(row, s.now) && IsResponsible(s, row.invitedBy))
    ensures Accept(s, i, u).Ok? ==> !Waits(Accept(s, i, u).state.invitations[i], s.now)
  {
  }

  /** The retention job deletes exactly what was accepted, withdrawn or over more than
      thirty days ago, and nothing else changes. */
  lemma RemoveOldExactly(s: State, i: nat)
    requires i in s.invitations
    ensures var row, cutoff := s.invitations[i], s.now - 30 * 24 * 3600;
            i !in RemoveOld(s).invitations <==>
              || (row.acceptedAt.Some? && row.acceptedAt.value < cutoff)
              || (row.withdrawnAt.Some? && row.withdrawnAt.value < cutoff)
              || row.expiresAt < cutoff
    ensures RemoveOld(s).invitations.Keys <= s.invitations.Keys && RemoveOld(s) == s.(invitations := RemoveOld(s).invitations)
    ensures i in RemoveOld(s).invitations ==> RemoveOld(s).invitations[i] == s.invitations[i]
  {
  }

  /** A removed link never comes back. */
  lemma {:induction false} RemovedForGood(states: seq<State>, steps: seq<Step>, k: nat, m: nat)
    requires Run(states, steps) && Inv(states[0]) && k < m <= |steps| && steps[k].DoRemove?
    ensures steps[k].l !in states[m].links
  {
    Always(states, steps, k);
    LinksNeverChange(states, steps, k + 1, m);
  }

  // ------------------------------------------------------------ single steps

  /** Removing is refused exactly to outsiders, and for the last parent or legal guardian. */
  lemma RemovalExactly(s: State, l: nat, by': UserId)
    requires Inv(s) && l in s.links
    ensures Remove(s, l, by').Ok? <==>
              && (s.links[l].guardian == by' || IsResponsible(s, by'))
              && Kept(s.(links := s.links - {l}))
  {
    var t := s.(links := s.links - {l});
    if Kept(t) {
      var m :| m in t.links && Responsible(t.links[m].relation);
      assert m in s.links && m != l && Responsible(s.links[m].relation);
    }
    if exists m :: m in s.links && m != l && Responsible(s.links[m].relation) {
      var m :| m in s.links && m != l && Responsible(s.links[m].relation);
      assert m in t.links && Responsible(t.links[m].relation);
    }
  }

  /** Whoever just accepted can accept no other invitation for this child. */
  lemma OneAcceptance(s: State, i: nat, u: UserId, j: nat)
    requires i in s.invitations && j in s.invitations && u in s.accounts && Accept(s, i, u).Ok?
    ensures Accept(Accept(s, i, u).state, j, u).Err?
  {
    var t := Accept(s, i, u).state;
    assert t.links[s.nextLink].guardian == u;
    assert IsGuardian(t, u);
  }

  /** The retention job deletes no invitation that can still be accepted. */
  lemma PendingIsKept(s: State, i: nat)
    requires i in s.invitations && IsPending(s.invitations[i], s.now)
    ensures i in RemoveOld(s).invitations && RemoveOld(s).invitations[i] == s.invitations[i]
  {
  }

  /** Sending an expired invitation again revives it, so two invitations for one
      address can be waiting at once although `Invite` refuses a second one. */
  lemma TwoCanWait()
    ensures exists s, t :: Initial(s) && Reaches(s, t) && !OneEach(t)
  {
    var s, ask := OneParent(), Ask();
    AskOnce();
    AskAgain();
    SendAgain();
    ReachesItself(s);
    ReachesNext(s, s, ask);
    ReachesNext(s, Apply(s, ask), Tick(15 * DAY));
    ReachesNext(s, FifteenDaysOn(), ask);
    ReachesNext(s, Apply(FifteenDaysOn(), ask), Tick(60));
    ReachesNext(s, AMinuteOn(), DoResend(0, 0));
  }

  /** There is a run from `s` to `t`. */
  ghost predicate Reaches(s: State, t: State) {
    exists states, steps :: Run(states, steps) && states[0] == s && states[|steps|] == t
  }

  lemma ReachesItself(s: State)
    ensures Reaches(s, s)
  {
    var none: seq<Step> := [];
    assert Run([s], none);
  }

  lemma ReachesNext(s: State, t: State, step: Step)
    requires Reaches(s, t) && Enabled(t, step)
    ensures Reaches(s, Apply(t, step))
  {
    var states, steps :| Run(states, steps) && states[0] == s && states[|steps|] == t;
    Longer(states, steps, step);
  }

  lemma Longer(states: seq<State>, steps: seq<Step>, step: Step)
    requires Run(states, steps) && Enabled(states[|steps|], step)
    ensures var u := Apply(states[|steps|], step);
            Run(states + [u], steps + [step]) && (states + [u])[0] == states[0] && (states + [u])[|steps| + 1] == u
  {
  }

  function Ask(): Step {
    DoInvite("x", true, Some(Other), 0, None)
  }

  function OneParent(): State {
    State(0, map[0 := Account("p", Adult, true)], map[0 := Link(0, Parent)], 1, map[], 0, 0, map[])
  }

  function Sent(at: int, token: nat): Invitation {
    Invitation("x", Other, 0, at, at + VALID_DAYS * DAY, None, None, None, token)
  }

  function FifteenDaysOn(): State {
    OneParent().(now := 15 * DAY, invitations := map[0 := Sent(0, 0)], nextInvitation := 1, nextToken := 1,
                 throttle := map[0 := 60])
  }

  function AMinuteOn(): State {
    OneParent().(now := 15 * DAY + 60, invitations := map[0 := Sent(0, 0), 1 := Sent(15 * DAY, 1)], nextInvitation := 2,
                 nextToken := 2, throttle := map[0 := 15 * DAY + 60])
  }

  lemma AskOnce()
    ensures Initial(OneParent()) && Enabled(OneParent(), Ask())
    ensures Enabled(Apply(OneParent(), Ask()), Tick(15 * DAY))
    ensures Apply(Apply(OneParent(), Ask()), Tick(15 * DAY)) == FifteenDaysOn()
  {
    var s := OneParent();
    assert HoldsBy(s, 0, 0);
    assert s.links[0] == Link(0, Parent);
  }

  lemma AskAgain()
    ensures Enabled(FifteenDaysOn(), Ask())
    ensures Apply(Apply(FifteenDaysOn(), Ask()), Tick(60)) == AMinuteOn()
  {
    var s := FifteenDaysOn();
    assert HoldsBy(s, 0, 0);
    assert !Waiting(s, "x");
  }

  lemma SendAgain()
    ensures Enabled(AMinuteOn(), DoResend(0, 0))
    ensures !OneEach(Apply(AMinuteOn(), DoResend(0, 0)))
  {
    var s := AMinuteOn();
    assert HoldsBy(s, 0, 0);
    var t := Apply(s, DoResend(0, 0));
    assert IsPending(t.invitations[0], t.now) && IsPending(t.invitations[1], t.now);
  }
}

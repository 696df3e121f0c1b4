/** One account's background check and its applications to become a mentor or a
    champion (applications/services.py, accounts/models.py). Times are seconds. */
module BackgroundChecks {
  import opened Basics

  const VALIDITY := 365 * 86_400

  type UserId = nat

  datatype CheckStatus = NotRequested | Requested | Submitted | Validated | Rejected

  datatype Decision = Accepted | Refused

  datatype HistoryRow = HistoryRow(decision: Decision, reviewer: Option<UserId>, reviewedAt: int, requestedAt: Option<int>,
                                   submittedAt: Option<int>, expiresAt: Option<int>)

  datatype Kind = Mentor | Champion

  datatype ApplicationStatus = Pending | Approved | Declined

  datatype Application = Application(kind: Kind, dojo: Option<nat>, status: ApplicationStatus, decidedBy: Option<UserId>, decidedAt: Option<int>)

  /** `submissions` counts the documents ever handed in. */
  datatype State = State(
    me: UserId, ninja: bool, now: int, status: CheckStatus, hasToken: bool, document: Option<string>,
    requestedAt: Option<int>, submittedAt: Option<int>, reviewedAt: Option<int>, expiresAt: Option<int>,
    history: seq<HistoryRow>, applications: seq<Application>, submissions: nat)

  datatype Error = AlreadyValid | AwaitingReview | NothingAsked | Yourself | NoDocument | OnlyAdults | AlreadyApplied | Decided | NoValidCheck

  datatype Result = Ok(state: State) | Err(error: Error)

  predicate CheckValid(s: State) {
    s.status == Validated && s.expiresAt.Some? && s.expiresAt.value > s.now
  }

  predicate CanUpload(s: State) {
    s.status == Requested || s.status == Rejected || (s.status == Validated && !CheckValid(s))
  }

  // ----------------------------------------------------------- the operations

  function Request(s: State): Result {
    if CheckValid(s) then Err(AlreadyValid)
    else if s.status == Submitted then Err(AwaitingReview)
    else Ok(s.(status := Requested, requestedAt := Some(s.now), hasToken := true))
  }

  function Submit(s: State, document: string): Result {
    if !CanUpload(s) then Err(NothingAsked)
    else Ok(s.(document := Some(document), status := Submitted, submittedAt := Some(s.now), submissions := s.submissions + 1))
  }

  /** The outcome of a review: the document goes at once, the decision stays. */
  function Decide(s: State, reviewer: Option<UserId>, decision: Decision): Result {
    if reviewer == Some(s.me) then Err(Yourself)
    else if s.status != Submitted then Err(NoDocument)
    else
      var expires := if decision == Accepted then Some(s.now + VALIDITY) else s.expiresAt;
      Ok(s.(status := if decision == Accepted then Validated else Rejected,
            reviewedAt := Some(s.now), expiresAt := expires, document := None,
            history := s.history + [HistoryRow(decision, reviewer, s.now, s.requestedAt, s.submittedAt,
                                               if decision == Accepted then expires else None)]))
  }

  predicate OpenApplication(a: Application, kind: Kind) {
    a.kind == kind && (a.status == Pending || a.status == Approved)
  }

  function NewApplication(s: State, kind: Kind, dojo: Option<nat>): Result {
    if s.ninja then Err(OnlyAdults)
    else if exists i :: 0 <= i < |s.applications| && OpenApplication(s.applications[i], kind) then Err(AlreadyApplied)
    else Ok(s.(applications := s.applications + [Application(kind, dojo, Pending, None, None)]))
  }

  function DecideApplication(s: State, i: nat, reviewer: Option<UserId>, approve: bool): Result
    requires i < |s.applications|
  {
    if reviewer == Some(s.me) then Err(Yourself)
    else if s.applications[i].status != Pending then Err(Decided)
    else if approve && !CheckValid(s) then Err(NoValidCheck)
    else Ok(s.(applications := s.applications[i := s.applications[i].(
                 status := if approve then Approved else Declined, decidedBy := reviewer, decidedAt := Some(s.now))]))
  }

  predicate IsApproved(s: State, kinds: set<Kind>) {
    && !s.ninja && CheckValid(s)
    && exists i :: 0 <= i < |s.applications| && s.applications[i].kind in kinds && s.applications[i].status == Approved
  }

  // ------------------------------------------------------ exactly when they succeed

  /** A check that has been accepted and is not over. */
  predicate Runs(s: State) {
    s.status == Validated && s.expiresAt.Some? && s.now < s.expiresAt.value
  }

  /** A check is asked for unless one runs or a document waits; a document is taken in
      exactly when one was asked for, the last was refused, or the check is over. */
  lemma AskingExactly(s: State, document: string)
    ensures Request(s).Ok? <==> !Runs(s) && s.status != Submitted
    ensures Request(s).Ok? ==> Request(s).state == s.(status := Requested, requestedAt := Some(s.now), hasToken := true)
    ensures Submit(s, document).Ok? <==> s.status in {Requested, Rejected} || (s.status == Validated && !Runs(s))
    ensures Submit(s, document).Ok? ==>
              Submit(s, document).state ==
              s.(document := Some(document), status := Submitted, submittedAt := Some(s.now), submissions := s.submissions + 1)
  {
  }

  /** Anybody but the account itself decides on a document that waits; accepting it makes
      a check that runs for 365 days, refusing it none. */
  lemma DecidingExactly(s: State, reviewer: Option<UserId>, decision: Decision)
    ensures Decide(s, reviewer, decision).Ok? <==> reviewer != Some(s.me) && s.status == Submitted
    ensures Decide(s, reviewer, decision).Ok? ==>
              var t := Decide(s, reviewer, decision).state;
              && t.document == None && t.reviewedAt == Some(s.now)
              && t.history == s.history + [HistoryRow(decision, reviewer, s.now, s.requestedAt, s.submittedAt,
                   if decision == Accepted then Some(s.now + 365 * 24 * 3600) else None)]
              && (decision == Accepted ==> forall later :: Runs(t.(now := later)) <==> later < s.now + 365 * 24 * 3600)
              && (decision == Refused ==> t.status == Rejected && forall later :: !Runs(t.(now := later)))
              && t == s.(status := t.status, reviewedAt := t.reviewedAt, document := None, history := t.history,
                         expiresAt := if decision == Accepted then Some(s.now + 365 * 24 * 3600) else s.expiresAt)
  {
  }

  /** An adult applies for what they have neither pending nor approved. */
  lemma ApplyingExactly(s: State, kind: Kind, dojo: Option<nat>)
    ensures NewApplication(s, kind, dojo).Ok? <==>
              !s.ninja && forall i :: 0 <= i < |s.applications| && s.applications[i].kind == kind ==> s.applications[i].status == Declined
    ensures NewApplication(s, kind, dojo).Ok? ==>
              NewApplication(s, kind, dojo).state ==
              s.(applications := s.applications + [Application(kind, dojo, Pending, None, None)])
  {
    if i :| 0 <= i < |s.applications| && s.applications[i].kind == kind && s.applications[i].status != Declined {
      assert OpenApplication(s.applications[i], kind);
    }
  }

  /** Anybody but the account itself decides on a pending application, and approves it
      exactly while a check runs. */
  lemma ApprovingExactly(s: State, i: nat, reviewer: Option<UserId>, approve: bool)
    requires i < |s.applications|
    ensures DecideApplication(s, i, reviewer, approve).Ok? <==>
              reviewer != Some(s.me) && s.applications[i].status == Pending && (approve ==> Runs(s))
    ensures DecideApplication(s, i, reviewer, approve).Ok? ==>
              DecideApplication(s, i, reviewer, approve).state ==
              s.(applications := s.applications[i := s.applications[i].(
                   status := if approve then Approved else Declined, decidedBy := reviewer, decidedAt := Some(s.now))])
  {
  }

  // --------------------------------------------------------------- every run

  datatype Step =
    | AskFor
    | HandIn(document: string)
    | Review(reviewer: Option<UserId>, decision: Decision)
    | ApplyFor(kind: Kind, dojo: Option<nat>)
    | DecideOn(i: nat, reviewer: Option<UserId>, approve: bool)
    | Tick(length: nat)

  predicate Enabled(s: State, step: Step) {
    step.DecideOn? ==> step.i < |s.applications|
  }

  /** A refused call changes nothing. */
  function After(s: State, r: Result): State {
    if r.Ok? then r.state else s
  }

  function Do(s: State, step: Step): State
    requires Enabled(s, step)
  {
    match step
    case AskFor => After(s, Request(s))
    case HandIn(document) => After(s, Submit(s, document))
    case Review(reviewer, decision) => After(s, Decide(s, reviewer, decision))
    case ApplyFor(kind, dojo) => After(s, NewApplication(s, kind, dojo))
    case DecideOn(i, reviewer, approve) => After(s, DecideApplication(s, i, reviewer, approve))
    case Tick(length) => s.(now := s.now + length)
  }

  predicate Possible(s: State, steps: seq<Step>)
    decreases |steps|
  {
    steps == [] || (Enabled(s, steps[0]) && Possible(Do(s, steps[0]), steps[1..]))
  }

  function Exec(s: State, steps: seq<Step>): State
    requires Possible(s, steps)
    decreases |steps|
  {
    if steps == [] then s else Exec(Do(s, steps[0]), steps[1..])
  }

  ghost predicate RowOk(s: State, h: HistoryRow) {
    && h.reviewedAt <= s.now
    && h.reviewer != Some(s.me)
    && h.expiresAt == (if h.decision == Accepted then Some(h.reviewedAt + VALIDITY) else None)
  }

  /** A check that was valid when the application was approved. */
  ghost predicate Vouched(history: seq<HistoryRow>, at: int) {
    exists k :: 0 <= k < |history| && history[k].decision == Accepted &&
      history[k].reviewedAt <= at < history[k].reviewedAt + VALIDITY
  }

  /** The account's dates are those of the latest decision, which accepted the check. */
  ghost predicate LastAccepted(s: State) {
    && s.history != []
    && var last := s.history[|s.history| - 1];
       last.decision == Accepted && s.expiresAt == last.expiresAt && s.reviewedAt == Some(last.reviewedAt)
  }

  ghost predicate CheckOk(s: State) {
    && (s.document.Some? <==> s.status == Submitted)
    && s.submissions == |s.history| + (if s.document.Some? then 1 else 0)
    && (forall k :: 0 <= k < |s.history| ==> RowOk(s, s.history[k]))
    && (s.status == Validated ==> LastAccepted(s))
    && (s.status == Rejected ==> s.history != [] && s.history[|s.history| - 1].decision == Refused)
  }

  lemma HistoryGrows(s: State, t: State, at: int)
    requires s.history <= t.history && Vouched(s.history, at)
    ensures Vouched(t.history, at)
  {
  }

  lemma ChecksStep(s: State, step: Step)
    requires CheckOk(s) && Enabled(s, step)
    ensures CheckOk(Do(s, step)) && s.history <= Do(s, step).history
  {
    var t := Do(s, step);
    assert forall k :: 0 <= k < |s.history| ==> t.history[k] == s.history[k] && RowOk(s, s.history[k]);
  }

  ghost predicate OneOpenPerKind(s: State) {
    forall i, j, kind :: 0 <= i < |s.applications| && 0 <= j < |s.applications| ==>
      !OpenApplication(s.applications[i], kind) || !OpenApplication(s.applications[j], kind) || i == j
  }

  ghost predicate AllVouched(s: State) {
    forall i :: 0 <= i < |s.applications| && s.applications[i].status == Approved ==>
      s.applications[i].decidedBy != Some(s.me) && s.applications[i].decidedAt.Some? &&
      Vouched(s.history, s.applications[i].decidedAt.value)
  }

  ghost predicate ApplicationsOk(s: State) {
    OneOpenPerKind(s) && AllVouched(s)
  }

  lemma VouchedStep(s: State, step: Step)
    requires CheckOk(s) && AllVouched(s) && Enabled(s, step)
    ensures AllVouched(Do(s, step))
  {
    var t := Do(s, step);
    ChecksStep(s, step);
    forall i | 0 <= i < |t.applications| && t.applications[i].status == Approved
      ensures t.applications[i].decidedBy != Some(t.me) && t.applications[i].decidedAt.Some? &&
              Vouched(t.history, t.applications[i].decidedAt.value)
    {
      if i < |s.applications| && t.applications[i] == s.applications[i] {
        HistoryGrows(s, t, s.applications[i].decidedAt.value);
      } else {
        var last := |s.history| - 1;
        assert RowOk(s, s.history[last]);
        assert s.history[last].reviewedAt <= s.now < s.history[last].reviewedAt + VALIDITY;
      }
    }
  }

  lemma OneOpenStep(s: State, step: Step)
    requires OneOpenPerKind(s) && Enabled(s, step)
    ensures OneOpenPerKind(Do(s, step))
  {
    var t := Do(s, step);
    forall i, j, kind | 0 <= i < |t.applications| && 0 <= j < |t.applications| &&
        OpenApplication(t.applications[i], kind) && OpenApplication(t.applications[j], kind)
      ensures i == j
    {
      if i < |s.applications| { assert t.applications[i].status != Declined ==> OpenApplication(s.applications[i], kind); }
      if j < |s.applications| { assert t.applications[j].status != Declined ==> OpenApplication(s.applications[j], kind); }
    }
  }

  lemma ApplicationsStep(s: State, step: Step)
    requires CheckOk(s) && ApplicationsOk(s) && Enabled(s, step)
    ensures ApplicationsOk(Do(s, step))
  {
    VouchedStep(s, step);
    OneOpenStep(s, step);
  }

  lemma {:induction false} Always(s: State, steps: seq<Step>)
    requires CheckOk(s) && ApplicationsOk(s) && Possible(s, steps)
    ensures CheckOk(Exec(s, steps)) && ApplicationsOk(Exec(s, steps)) && Exec(s, steps).me == s.me
    decreases |steps|
  {
    if steps == [] {
    } else {
      ChecksStep(s, steps[0]);
      ApplicationsStep(s, steps[0]);
      Always(Do(s, steps[0]), steps[1..]);
    }
  }

  predicate Unused(s: State) {
    s.status == NotRequested && s.document == None && s.history == [] && s.applications == [] && s.submissions == 0
  }

  /** Every document handed in is either waiting for a review or was decided on, and
      is kept exactly while it waits. The check counts as valid exactly when the
      account says so and the latest decision accepted it less than a year ago; that
      decision was somebody else's. */
  lemma NothingLost(s: State, steps: seq<Step>)
    requires Unused(s) && Possible(s, steps)
    ensures var t := Exec(s, steps);
            && (t.document.Some? <==> t.status == Submitted)
            && t.submissions == |t.history| + (if t.document.Some? then 1 else 0)
            && (CheckValid(t) <==>
                  && t.status == Validated && t.history != []
                  && var last := t.history[|t.history| - 1];
                     last.decision == Accepted && t.now < last.reviewedAt + VALIDITY)
            && (CheckValid(t) ==>
                  && t.expiresAt == Some(t.history[|t.history| - 1].reviewedAt + VALIDITY)
                  && t.history[|t.history| - 1].reviewer != Some(t.me))
  {
    Always(s, steps);
    var t := Exec(s, steps);
    if t.history != [] { assert RowOk(t, t.history[|t.history| - 1]); }
  }

  /** An account is never asking for the same thing twice, and every approval was given by
      somebody else while a check of the account was valid. */
  lemma OneOpenApplication(s: State, steps: seq<Step>)
    requires Unused(s) && Possible(s, steps)
    ensures var t := Exec(s, steps);
            && (forall i, j :: 0 <= i < j < |t.applications| && t.applications[i].kind == t.applications[j].kind ==>
                 t.applications[i].status == Declined || t.applications[j].status == Declined)
            && (forall i :: 0 <= i < |t.applications| && t.applications[i].status == Approved ==>
                 t.applications[i].decidedBy != Some(t.me) && t.applications[i].decidedAt.Some? &&
                 Vouched(t.history, t.applications[i].decidedAt.value))
  {
    Always(s, steps);
    var t := Exec(s, steps);
    forall i, j | 0 <= i < j < |t.applications| && t.applications[i].kind == t.applications[j].kind
      ensures t.applications[i].status == Declined || t.applications[j].status == Declined
    {
      if t.applications[i].status != Declined && t.applications[j].status != Declined {
        assert OpenApplication(t.applications[i], t.applications[i].kind) && OpenApplication(t.applications[j], t.applications[i].kind);
        assert false;
      }
    }
  }

  /** An approved mentor or champion has a check that somebody else accepted less than
      a year ago, and an approval somebody else gave while a check was valid. */
  lemma {:induction false} ApprovedIsVouchedFor(s: State, steps: seq<Step>, kinds: set<Kind>)
    requires Unused(s) && Possible(s, steps) && IsApproved(Exec(s, steps), kinds)
    ensures var t := Exec(s, steps);
            && t.history != []
            && var last := t.history[|t.history| - 1];
               last.decision == Accepted && last.reviewer != Some(t.me) && t.now < last.reviewedAt + VALIDITY
    ensures var t := Exec(s, steps);
            exists i :: 0 <= i < |t.applications| && t.applications[i].kind in kinds && t.applications[i].status == Approved &&
              t.applications[i].decidedBy != Some(t.me) && t.applications[i].decidedAt.Some? &&
              Vouched(t.history, t.applications[i].decidedAt.value)
  {
    NothingLost(s, steps);
    OneOpenApplication(s, steps);
    var t := Exec(s, steps);
    var i :| 0 <= i < |t.applications| && t.applications[i].kind in kinds && t.applications[i].status == Approved;
  }

  /** The loop's states: accepted, over after a year, refused, and accepted again. */
  function OnceAccepted(s: State): State {
    AfterThree(s, AskFor, HandIn("a"), Review(None, Accepted))
  }

  function AfterThree(s: State, a: Step, b: Step, c: Step): State
    requires !a.DecideOn? && !b.DecideOn? && !c.DecideOn?
  {
    Do(Do(Do(s, a), b), c)
  }

  lemma LoopStates(s: State)
    requires Unused(s)
    ensures var t := OnceAccepted(s); CheckValid(t) && t.submissions == 1 && t.now == s.now && t.ninja == s.ninja
    ensures var u := AfterThree(OnceAccepted(s), Tick(365 * 24 * 3600), HandIn("b"), Review(None, Refused));
            u.status == Rejected && u.submissions == 2 && u.now == s.now + 365 * 24 * 3600
  {
  }

  lemma LoopEnds(u: State)
    requires u.status == Rejected
    ensures var t := Do(Do(u, HandIn("c")), Review(None, Accepted));
            CheckValid(t) && t.submissions == u.submissions + 1 && t.now == u.now
  {
  }

  /** A run of the whole loop: a check is asked for, handed in and accepted; a year later
      it is over, a new document is handed in without being asked for, and refused; and
      one more is accepted. */
  lemma LoopRuns(s: State)
    requires Unused(s)
    ensures exists steps ::
              && Possible(s, steps) && CheckValid(Exec(s, steps)) && Exec(s, steps).submissions == 3
              && Exec(s, steps).now == s.now + 365 * 24 * 3600
  {
    LoopStates(s);
    var t := OnceAccepted(s);
    SecondYearRuns(t);
    RunsTwo(Do(s, AskFor), HandIn("a"), Review(None, Accepted), SecondYear());
    RunsOne(s, AskFor, [HandIn("a"), Review(None, Accepted)] + SecondYear());
    LoopEnds(AfterThree(t, Tick(365 * 24 * 3600), HandIn("b"), Review(None, Refused)));
    assert Possible(s, [AskFor] + ([HandIn("a"), Review(None, Accepted)] + SecondYear()));
  }

  function SecondYear(): seq<Step> {
    [Tick(365 * 24 * 3600)] + ([HandIn("b"), Review(None, Refused)] + ([HandIn("c"), Review(None, Accepted)] + []))
  }

  lemma SecondYearRuns(t: State)
    ensures Possible(t, SecondYear())
    ensures Exec(t, SecondYear()) ==
            Do(Do(AfterThree(t, Tick(365 * 24 * 3600), HandIn("b"), Review(None, Refused)), HandIn("c")), Review(None, Accepted))
  {
    var u := AfterThree(t, Tick(365 * 24 * 3600), HandIn("b"), Review(None, Refused));
    var last := [HandIn("c"), Review(None, Accepted)] + [];
    RunsTwo(u, HandIn("c"), Review(None, Accepted), []);
    RunsTwo(Do(t, Tick(365 * 24 * 3600)), HandIn("b"), Review(None, Refused), last);
    RunsOne(t, Tick(365 * 24 * 3600), [HandIn("b"), Review(None, Refused)] + last);
  }

  lemma RunsOne(s: State, step: Step, rest: seq<Step>)
    requires Enabled(s, step) && Possible(Do(s, step), rest)
    ensures Possible(s, [step] + rest) && Exec(s, [step] + rest) == Exec(Do(s, step), rest)
  {
    assert ([step] + rest)[1..] == rest;
  }

  lemma RunsTwo(s: State, a: Step, b: Step, rest: seq<Step>)
    requires Enabled(s, a) && Enabled(Do(s, a), b) && Possible(Do(Do(s, a), b), rest)
    ensures Possible(s, [a, b] + rest) && Exec(s, [a, b] + rest) == Exec(Do(Do(s, a), b), rest)
  {
    RunsOne(Do(s, a), b, rest);
    RunsOne(s, a, [b] + rest);
    assert [a, b] + rest == [a] + ([b] + rest);
  }

  /** The same renewal loop serves every state: an account without a valid check can
      always be brought to one by at most a request, a document and a review. */
  lemma RenewalIsPossible(s: State, document: string)
    requires CheckOk(s) && !CheckValid(s)
    ensures var asked := After(s, Request(s));
            var handed := After(asked, Submit(asked, document));
            CheckValid(After(handed, Decide(handed, None, Accepted)))
  {
  }

  // ----------------------------------------------------------- the functions

  class Account {
    const me: UserId
    const ninja: bool
    var status: CheckStatus
    var hasToken: bool
    var document: Option<string>
    var requestedAt: Option<int>
    var submittedAt: Option<int>
    var reviewedAt: Option<int>
    var expiresAt: Option<int>
    var history: seq<HistoryRow>
    var applications: seq<Application>
    ghost var submissions: nat

    ghost function At(now: int): State
      reads this
    {
      State(me, ninja, now, status, hasToken, document, requestedAt, submittedAt, reviewedAt, expiresAt,
            history, applications, submissions)
    }

    constructor (me: UserId, ninja: bool)
      ensures forall now :: Unused(At(now))
      ensures this.me == me && this.ninja == ninja
    {
      this.me, this.ninja := me, ninja;
      status, hasToken, document := NotRequested, false, Option.None;
      requestedAt, submittedAt, reviewedAt, expiresAt := Option.None, Option.None, Option.None, Option.None;
      history, applications, submissions := [], [], 0;
    }

    predicate Valid(now: int)
      reads this
    {
      status == Validated && expiresAt.Some? && expiresAt.value > now
    }

    predicate IsApprovedNow(kinds: set<Kind>, now: int)
      reads this
      ensures IsApprovedNow(kinds, now) == IsApproved(At(now), kinds)
    {
      && !ninja && Valid(now)
      && exists i :: 0 <= i < |applications| && applications[i].kind in kinds && applications[i].status == Approved
    }

    method RequestCheck(now: int) returns (error: Option<Error>)
      modifies this`status, this`requestedAt, this`hasToken
      ensures match Request(old(At(now))) {
                case Ok(after) => error == None && At(now) == after
                case Err(e) => error == Some(e) && At(now) == old(At(now))
              }
    {
      if Valid(now) {
        return Some(AlreadyValid);
      }
      if status == Submitted {
        return Some(AwaitingReview);
      }
      status := Requested;
      requestedAt := Some(now);
      if !hasToken {
        hasToken := true;
      }
      error := Option.None;
    }

    method SubmitCheck(uploaded: string, now: int) returns (error: Option<Error>)
      modifies this`status, this`document, this`submittedAt, this`submissions
      ensures match Submit(old(At(now)), uploaded) {
                case Ok(after) => error == None && At(now) == after
                case Err(e) => error == Some(e) && At(now) == old(At(now))
              }
    {
      if status != Requested && status != Rejected && !(status == Validated && !Valid(now)) {
        return Some(NothingAsked);
      }
      document := Some(uploaded);
      status := Submitted;
      submittedAt := Some(now);
      submissions := submissions + 1;
      error := Option.None;
    }

    /** `_record_decision`: drops the document and appends the row, from what the
        caller just set. */
    method RecordDecision(reviewer: Option<UserId>, decision: Decision, now: int)
      modifies this`document, this`history
      ensures document == None
      ensures history == old(history) + [HistoryRow(decision, reviewer, if reviewedAt.Some? then reviewedAt.value else now,
                requestedAt, submittedAt, if decision == Accepted then expiresAt else None)]
    {
      document := Option.None;
      history := history + [HistoryRow(decision, reviewer, if reviewedAt.Some? then reviewedAt.value else now,
        requestedAt, submittedAt, if decision == Accepted then expiresAt else Option.None)];
    }

    method ValidateCheck(reviewer: Option<UserId>, now: int) returns (error: Option<Error>)
      modifies this`status, this`reviewedAt, this`expiresAt, this`document, this`history
      ensures match Decide(old(At(now)), reviewer, Accepted) {
                case Ok(after) => error == None && At(now) == after
                case Err(e) => error == Some(e) && At(now) == old(At(now))
              }
    {
      if reviewer == Some(me) {
        return Some(Yourself);
      }
      if status != Submitted {
        return Some(NoDocument);
      }
      status := Validated;
      reviewedAt := Some(now);
      expiresAt := Some(now + VALIDITY);
      RecordDecision(reviewer, Accepted, now);
      error := Option.None;
    }

    method RejectCheck(reviewer: Option<UserId>, now: int) returns (error: Option<Error>)
      modifies this`status, this`reviewedAt, this`document, this`history
      ensures match Decide(old(At(now)), reviewer, Refused) {
                case Ok(after) => error == None && At(now) == after
                case Err(e) => error == Some(e) && At(now) == old(At(now))
              }
    {
      if reviewer == Some(me) {
        return Some(Yourself);
      }
      if status != Submitted {
        return Some(NoDocument);
      }
      status := Rejected;
      reviewedAt := Some(now);
      RecordDecision(reviewer, Refused, now);
      error := Option.None;
    }

    method SubmitApplication(kind: Kind, dojo: Option<nat>, now: int) returns (error: Option<Error>)
      modifies this`applications
      ensures match NewApplication(old(At(now)), kind, dojo) {
                case Ok(after) => error == None && At(now) == after
                case Err(e) => error == Some(e) && At(now) == old(At(now))
              }
    {
      if ninja {
        return Some(OnlyAdults);
      }
      var i := 0;
      while i < |applications|
        invariant 0 <= i <= |applications|
        invariant forall k :: 0 <= k < i ==> !OpenApplication(applications[k], kind)
      {
        if OpenApplication(applications[i], kind) {
          return Some(AlreadyApplied);
        }
        i := i + 1;
      }
      applications := applications + [Application(kind, dojo, Pending, Option.None, Option.None)];
      error := Option.None;
    }

    /** Approving a mentor's application also asks the dojo it names to take the mentor
        on; `takesRequests` is whether that dojo's team would. */
    method DecideOnApplication(i: nat, reviewer: Option<UserId>, approve: bool, takesRequests: bool, now: int)
      returns (error: Option<Error>, joins: Option<nat>)
      requires i < |applications|
      modifies this`applications
      ensures match DecideApplication(old(At(now)), i, reviewer, approve) {
                case Ok(after) => error == None && At(now) == after
                case Err(e) => error == Some(e) && At(now) == old(At(now))
              }
      ensures joins == if error == None && approve && old(applications)[i].kind == Mentor && takesRequests && !ninja
                       then old(applications)[i].dojo else None
    {
      joins := Option.None;
      if reviewer == Some(me) {
        return Some(Yourself), joins;
      }
      if applications[i].status != Pending {
        return Some(Decided), joins;
      }
      if approve && !Valid(now) {
        return Some(NoValidCheck), joins;
      }
      applications := applications[i := applications[i].(
        status := if approve then Approved else Declined, decidedBy := reviewer, decidedAt := Some(now))];
      error := Option.None;
      if approve && applications[i].kind == Mentor && applications[i].dojo.Some? {
        assert applications[i].status == Approved;
        joins := if IsApprovedNow({Mentor, Champion}, now) && takesRequests then applications[i].dojo else Option.None;
      }
    }
  }
}

/** How many mailings to families a dojo may launch in thirty days
    (campaigns/services.py, `dojo_launches` and the limit check). Times are seconds. */
module DojoLimit {
  import opened Basics

  const WINDOW := 30 * 86_400

  /** Whether a test mail of the mailing is out, whether a mail of its own is, and
      whether it has one, in whatever state. */
  datatype Mails = Mails(testSent: bool, ownSent: bool, own: bool)

  /** `revived`: it came to count again after it had been cancelled. */
  datatype Mailing = Mailing(launchedAt: int, toFamilies: bool, cancelled: bool, mails: Mails, revived: bool)

  datatype State = State(now: int, limit: nat, mailings: seq<Mailing>)

  /** A cancelled mailing is left out unless some mail of it is out and some mail of it
      is no test: the two conditions that the query puts on a mailing's mail need not
      hold of the same mail. */
  predicate Counts(m: Mailing) {
    m.toFamilies && (!m.cancelled || ((m.mails.testSent || m.mails.ownSent) && m.mails.own))
  }

  /** As documented: a cancelled one counts when some of its mail went out. */
  predicate Documented(m: Mailing) {
    m.toFamilies && (!m.cancelled || m.mails.ownSent)
  }

  /** The query counts what is documented and, besides, cancelled mailings of which only
      a test mail is out. */
  lemma CountsExactly(m: Mailing)
    requires m.mails.ownSent ==> m.mails.own
    ensures Counts(m) <==>
            Documented(m) || (m.toFamilies && m.cancelled && m.mails.testSent && m.mails.own && !m.mails.ownSent)
  {
  }

  /** `dojo_launches`: launched since, to families, and not cancelled unsent. */
  function LaunchedSince(s: State, since: int): set<nat> {
    set i | 0 <= i < |s.mailings| && s.mailings[i].launchedAt >= since && Counts(s.mailings[i])
  }

  function DojoLaunches(s: State): nat {
    |LaunchedSince(s, s.now - WINDOW)|
  }

  /** `MailChanges`: rows of the mailing are added or change state; none is deleted. */
  datatype Step =
    | Launch(toFamilies: bool)
    | Cancel(i: nat)
    | MailChanges(i: nat, mails: Mails)
    | Tick(length: nat)

  predicate Enabled(s: State, step: Step) {
    match step
    case Launch(toFamilies) => toFamilies ==> DojoLaunches(s) < s.limit
    case Cancel(i) => i < |s.mailings|
    case MailChanges(i, mails) => i < |s.mailings| && (s.mailings[i].mails.own || mails.ownSent ==> mails.own)
    case Tick(_) => true
  }

  /** What the runs range over: any mailing may be cancelled and its mail change in any
      way, except that rows are not deleted and what is sent is a mail. */
  lemma AnythingMayHappen(s: State, i: nat, mails: Mails, length: nat)
    ensures Enabled(s, Tick(length)) && Enabled(s, Launch(false))
    ensures i < |s.mailings| ==> Enabled(s, Cancel(i))
    ensures i < |s.mailings| ==>
              (Enabled(s, MailChanges(i, mails)) <==> (s.mailings[i].mails.own ==> mails.own) && (mails.ownSent ==> mails.own))
  {
  }

  function NoMails(): Mails {
    Mails(false, false, false)
  }

  function Apply(s: State, step: Step): State
    requires Enabled(s, step)
  {
    match step
    case Launch(toFamilies) => s.(mailings := s.mailings + [Mailing(s.now, toFamilies, false, NoMails(), false)])
    case Cancel(i) => s.(mailings := s.mailings[i := s.mailings[i].(cancelled := true)])
    case MailChanges(i, mails) =>
      var m := s.mailings[i].(mails := mails);
      s.(mailings := s.mailings[i := m.(revived := m.revived || (Counts(m) && !Counts(s.mailings[i])))])
    case Tick(length) => s.(now := s.now + length)
  }

  predicate Possible(s: State, steps: seq<Step>)
    decreases |steps|, 0
  {
    steps == [] || (Possible(s, steps[..|steps| - 1]) && Enabled(Exec(s, steps[..|steps| - 1]), steps[|steps| - 1]))
  }

  function Exec(s: State, steps: seq<Step>): State
    requires Possible(s, steps)
    decreases |steps|, 1
  {
    if steps == [] then s else Apply(Exec(s, steps[..|steps| - 1]), steps[|steps| - 1])
  }

  predicate Within(m: Mailing, from: int) {
    from <= m.launchedAt <= from + WINDOW
  }

  /** What counts in the thirty days from `from`, both ends included. */
  function Counted(s: State, from: int): set<nat> {
    set i | 0 <= i < |s.mailings| && Within(s.mailings[i], from) && Counts(s.mailings[i])
  }

  /** Those of them that always did, and those that came back. */
  function Firm(s: State, from: int): set<nat> {
    set i | i in Counted(s, from) && !s.mailings[i].revived
  }

  function Revived(s: State, from: int): set<nat> {
    set i | i in Counted(s, from) && s.mailings[i].revived
  }

  ghost predicate Past(s: State) {
    forall i :: 0 <= i < |s.mailings| ==> s.mailings[i].launchedAt <= s.now
  }

  ghost predicate Inv(s: State) {
    Past(s) && forall from :: |Firm(s, from)| <= s.limit
  }

  /** Nothing but a launch adds to what counts and always did. */
  lemma NoMoreFirm(s: State, step: Step, from: int)
    requires Enabled(s, step) && !step.Launch?
    ensures Firm(Apply(s, step), from) <= Firm(s, from)
  {
  }

  /** A launch to families adds itself to the windows that hold the present. */
  lemma LaunchAddsOne(s: State, toFamilies: bool, from: int)
    requires Enabled(s, Launch(toFamilies))
    ensures var t := Apply(s, Launch(toFamilies));
            var more := if toFamilies && from <= s.now <= from + WINDOW then {|s.mailings|} else {};
            Counted(t, from) == Counted(s, from) + more && Firm(t, from) == Firm(s, from) + more
  {
    var t := Apply(s, Launch(toFamilies));
    assert forall i :: 0 <= i < |s.mailings| ==> t.mailings[i] == s.mailings[i];
  }

  /** Those windows held less than the limit. */
  lemma LaunchFits(s: State, toFamilies: bool, from: int)
    requires Past(s) && Enabled(s, Launch(toFamilies))
    ensures var t := Apply(s, Launch(toFamilies));
            && |Counted(t, from)| <= (if |Counted(s, from)| <= s.limit then s.limit else |Counted(s, from)|)
            && (|Firm(s, from)| <= s.limit ==> |Firm(t, from)| <= s.limit)
  {
    LaunchAddsOne(s, toFamilies, from);
    if toFamilies && from <= s.now <= from + WINDOW {
      Fewer(Counted(s, from), LaunchedSince(s, s.now - WINDOW));
      Fewer(Firm(s, from), Counted(s, from));
    }
  }

  lemma StepKeeps(s: State, step: Step)
    requires Inv(s) && Enabled(s, step)
    ensures Inv(Apply(s, step)) && Apply(s, step).limit == s.limit
  {
    var t := Apply(s, step);
    forall from ensures |Firm(t, from)| <= t.limit {
      if step.Launch? {
        LaunchFits(s, step.toFamilies, from);
      } else {
        NoMoreFirm(s, step, from);
        Fewer(Firm(t, from), Firm(s, from));
      }
    }
  }

  lemma {:induction false} Always(s: State, steps: seq<Step>)
    requires Inv(s) && Possible(s, steps)
    ensures Inv(Exec(s, steps)) && Exec(s, steps).limit == s.limit
    decreases |steps|
  {
    if steps == [] {
    } else {
      Always(s, steps[..|steps| - 1]);
      StepKeeps(Exec(s, steps[..|steps| - 1]), steps[|steps| - 1]);
    }
  }

  /** In every run and every thirty days, wherever they start, the mailings that count
      are at most the limit plus those of them that came to count again after a
      cancel. */
  lemma {:induction false} LimitHolds(s: State, steps: seq<Step>, from: int)
    requires s.mailings == [] && Possible(s, steps)
    ensures var t := Exec(s, steps);
            |Counted(t, from) - Revived(t, from)| <= s.limit && |Counted(t, from)| <= s.limit + |Revived(t, from)|
    ensures var t := Exec(s, steps);
            Counted(t, from) ==
            set i | 0 <= i < |t.mailings| && from <= t.mailings[i].launchedAt <= from + 30 * 24 * 3600 && Counts(t.mailings[i])
  {
    assert forall from :: Firm(s, from) == {};
    Always(s, steps);
    var t := Exec(s, steps);
    var f, r := Firm(t, from), Revived(t, from);
    assert Counted(t, from) == f + r && Counted(t, from) - r == f;
  }

  // ------------------------------------------------------ exactly when it breaks

  ghost predicate WithinLimit(s: State) {
    forall from :: |Counted(s, from)| <= s.limit
  }

  /** A cancelled mailing comes to count again in some thirty days that are full. */
  ghost predicate Overfills(s: State, step: Step) {
    && step.MailChanges? && step.i < |s.mailings|
    && !Counts(s.mailings[step.i]) && Counts(s.mailings[step.i].(mails := step.mails))
    && exists from :: Within(s.mailings[step.i], from) && Full(s, from)
  }

  ghost predicate Full(s: State, from: int) {
    |Counted(s, from)| == s.limit
  }

  lemma ChangeCounts(s: State, step: Step, from: int)
    requires Enabled(s, step) && step.MailChanges?
    ensures var m, n := s.mailings[step.i], s.mailings[step.i].(mails := step.mails);
            Counted(Apply(s, step), from) ==
            if Within(m, from) && Counts(n) then Counted(s, from) + {step.i} else Counted(s, from) - {step.i}
  {
    var t := Apply(s, step);
    assert forall i :: 0 <= i < |s.mailings| && i != step.i ==> t.mailings[i] == s.mailings[i];
  }

  lemma NoMoreCounted(s: State, step: Step, from: int)
    requires Enabled(s, step) && (step.Cancel? || step.Tick?)
    ensures |Counted(Apply(s, step), from)| <= |Counted(s, from)|
  {
    Fewer(Counted(Apply(s, step), from), Counted(s, from));
  }

  lemma ChangeExactly(s: State, step: Step)
    requires WithinLimit(s) && Enabled(s, step) && step.MailChanges?
    ensures WithinLimit(Apply(s, step)) <==> !Overfills(s, step)
  {
    var t, m := Apply(s, step), s.mailings[step.i];
    forall from ensures |Counted(t, from)| <= |Counted(s, from)| ||
        (Within(m, from) && !Counts(m) && step.i !in Counted(s, from) && |Counted(t, from)| == |Counted(s, from)| + 1)
    {
      ChangeCounts(s, step, from);
      if Within(m, from) && Counts(t.mailings[step.i]) {
        if Counts(m) { assert Counted(t, from) == Counted(s, from); }
      } else {
        Fewer(Counted(t, from), Counted(s, from));
      }
    }
    if Overfills(s, step) {
      var from :| Within(m, from) && Full(s, from);
      ChangeCounts(s, step, from);
      assert |Counted(t, from)| == |Counted(s, from)| + 1;
    }
    if !WithinLimit(t) {
      var from :| |Counted(t, from)| > t.limit;
      ChangeCounts(s, step, from);
      assert Within(m, from) && Full(s, from);
    }
  }

  /** From a state within the limit, a step goes over it exactly then. */
  lemma LimitExactly(s: State, step: Step)
    requires Past(s) && WithinLimit(s) && Enabled(s, step)
    ensures WithinLimit(Apply(s, step)) <==> !Overfills(s, step)
  {
    if step.MailChanges? {
      ChangeExactly(s, step);
    } else {
      forall from ensures |Counted(Apply(s, step), from)| <= s.limit {
        if step.Launch? { LaunchFits(s, step.toFamilies, from); } else { NoMoreCounted(s, step, from); }
      }
    }
  }

  ghost predicate AlwaysWithinLimit(s: State, steps: seq<Step>)
    requires Possible(s, steps)
    decreases |steps|
  {
    WithinLimit(Exec(s, steps)) && (steps == [] || AlwaysWithinLimit(s, steps[..|steps| - 1]))
  }

  ghost predicate NeverOverfills(s: State, steps: seq<Step>)
    requires Possible(s, steps)
    decreases |steps|
  {
    steps == [] ||
    (NeverOverfills(s, steps[..|steps| - 1]) && !Overfills(Exec(s, steps[..|steps| - 1]), steps[|steps| - 1]))
  }

  /** Over every run: no thirty days ever hold more than the limit if and only if no
      cancelled mailing comes to count again where there is no room. */
  lemma {:induction false} LimitHoldsExactly(s: State, steps: seq<Step>)
    requires s.mailings == [] && Possible(s, steps)
    ensures AlwaysWithinLimit(s, steps) <==> NeverOverfills(s, steps)
    decreases |steps|
  {
    assert forall from :: Counted(s, from) == {} && Firm(s, from) == {};
    if steps == [] {
    } else {
      var before := steps[..|steps| - 1];
      LimitHoldsExactly(s, before);
      Always(s, before);
      if AlwaysWithinLimit(s, before) {
        LimitExactly(Exec(s, before), steps[|steps| - 1]);
      }
    }
  }

  // ------------------------------------------------------------- runs that do

  ghost predicate Reaches(s: State, t: State) {
    exists steps :: Possible(s, steps) && Exec(s, steps) == t
  }

  lemma ReachesItself(s: State)
    ensures Reaches(s, s)
  {
    var none: seq<Step> := [];
    assert Possible(s, none) && Exec(s, none) == s;
  }

  lemma ReachesNext(s: State, t: State, step: Step)
    requires Reaches(s, t) && Enabled(t, step)
    ensures Reaches(s, Apply(t, step))
  {
    var steps :| Possible(s, steps) && Exec(s, steps) == t;
    var more := steps + [step];
    assert more[..|more| - 1] == steps;
    assert Possible(s, more) && Exec(s, more) == Apply(t, step);
  }

  /** Two mailings under a limit of one: the first has mail of its own waiting and is
      cancelled, which makes room for the second. */
  function RoomForTwo(): State {
    State(0, 1, [Mailing(0, true, true, Mails(false, false, true), false), Mailing(0, true, false, NoMails(), false)])
  }

  lemma ReachesTwo()
    ensures Reaches(State(0, 1, []), RoomForTwo())
  {
    var s, waiting := State(0, 1, []), Mails(false, false, true);
    ReachesItself(s);
    assert LaunchedSince(s, 0 - WINDOW) == {};
    ReachesNext(s, s, Launch(true));
    var a := State(0, 1, [Mailing(0, true, false, NoMails(), false)]);
    ReachesNext(s, a, MailChanges(0, waiting));
    var b := State(0, 1, [Mailing(0, true, false, waiting, false)]);
    assert Apply(a, MailChanges(0, waiting)) == b;
    ReachesNext(s, b, Cancel(0));
    var c := State(0, 1, [Mailing(0, true, true, waiting, false)]);
    assert Apply(b, Cancel(0)) == c;
    assert LaunchedSince(c, 0 - WINDOW) == {};
    ReachesNext(s, c, Launch(true));
    assert Apply(c, Launch(true)) == RoomForTwo();
  }

  /** Then one of the first one's mails goes out after all, its own or a test: two in
      thirty days. */
  lemma LateMailGoesOver(own: bool)
    ensures exists t: State, from: int :: Reaches(State(0, 1, []), t) && |Counted(t, from)| == t.limit + 1
  {
    ReachesTwo();
    var step := MailChanges(0, Mails(!own, own, true));
    ReachesNext(State(0, 1, []), RoomForTwo(), step);
    var t := Apply(RoomForTwo(), step);
    assert Counted(t, 0) == {0, 1};
    assert |Counted(t, 0)| == 2;
  }
}

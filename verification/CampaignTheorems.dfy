/** What holds in every run of CampaignProtocol. */
module CampaignTheorems {
  import opened Audience
  import opened CampaignMail
  import opened CampaignProtocol

  // ------------------------------------------------------------- cancelling

  ghost predicate Busy(pc: Pc) {
    pc.Queuing? || pc.Withdrawing?
  }

  /** Row `i` belongs to a chunk that is still running. */
  ghost predicate Running(s: State, i: nat) {
    exists w :: w in s.workers && i in s.workers[w].mine
  }

  /** Only chunks that are at work own rows; and in a cancelled campaign every waiting
      mail belongs to one of them or is among those `left`. */
  ghost predicate Spoken(s: State, left: set<nat>) {
    && (forall w :: w in s.workers && !Busy(s.workers[w].pc) ==> s.workers[w].mine == {})
    && (s.status == Cancelled ==> forall i :: i in Waiting(s.mails) ==> i in left || Running(s, i))
  }

  lemma StillRunning(s: State, t: State, w: nat, i: nat)
    requires Running(s, i)
    requires forall v :: v in s.workers && v != w ==> v in t.workers && t.workers[v] == s.workers[v]
    requires At(s, w).mine <= At(t, w).mine
    ensures Running(t, i)
  {
  }

  lemma SpokenMove(s: State, w: nat, t: State, left: set<nat>)
    requires Spoken(s, left) && t.mails == s.mails
    requires t.status == Cancelled ==> s.status == Cancelled
    requires exists pc :: t.workers == Move(s, w, pc).workers && (Busy(At(s, w).pc) ==> Busy(pc))
    ensures Spoken(t, left)
  {
    forall i | t.status == Cancelled && i in Waiting(t.mails) ensures i in left || Running(t, i) {
      if Running(s, i) { StillRunning(s, t, w, i); }
    }
  }

  /** The row a chunk adds is its own. */
  lemma SpokenAdds(s: State, t: State, w: nat, pc: Pc, mail: Mail, left: set<nat>)
    requires Spoken(s, left) && Busy(pc) && t.status == s.status && t.mails == s.mails + [mail]
    requires t.workers == s.workers[w := Worker(pc, At(s, w).mine + {|s.mails|})]
    ensures Spoken(t, left)
  {
    forall i | t.status == Cancelled && i in Waiting(t.mails) ensures i in left || Running(t, i) {
      if i == |s.mails| {
        assert i in t.workers[w].mine;
      } else {
        assert i in Waiting(s.mails);
        if Running(s, i) { StillRunning(s, t, w, i); }
      }
    }
  }

  lemma SpokenSend(s: State, step: Step, left: set<nat>)
    requires Spoken(s, left) && Enabled(s, step) && step.SendNext?
    ensures Spoken(Apply(s, step), left)
  {
    var w, pc, t := step.w, At(s, step.w).pc, Apply(s, step);
    if Adds(s, w) {
      SendAdds(s, w, step.blocked);
      SpokenAdds(s, t, w, pc.(k := pc.k + 1), Fresh(pc.slice[pc.k], step.blocked), left);
    } else {
      SendSkips(s, w, step.blocked);
      SpokenMove(s, w, t, left);
    }
  }

  lemma SpokenChunk(s: State, step: Step, left: set<nat>)
    requires Spoken(s, left) && Enabled(s, step)
    requires Begins(step)
    ensures Spoken(Apply(s, step), left)
  {
    SpokenMove(s, step.w, Apply(s, step), left);
  }

  /** A chunk that finds the campaign cancelled goes on to withdraw. */
  lemma SpokenFinish(s: State, step: Step, left: set<nat>)
    requires Spoken(s, left) && Enabled(s, step) && step.Finish?
    ensures Spoken(Apply(s, step), left)
  {
    if s.status != Sending {
      assert Apply(s, step).workers == Move(s, step.w, Withdrawing).workers;
      SpokenMove(s, step.w, Apply(s, step), left);
    }
  }

  /** A worker lets go of its rows. */
  lemma SpokenLeave(s: State, w: nat, pc: Pc, left: set<nat>)
    requires Spoken(s, left)
    ensures Spoken(Leave(s, w, pc), left + At(s, w).mine * Waiting(s.mails))
  {
    var t := Leave(s, w, pc);
    forall i | t.status == Cancelled && i in Waiting(t.mails) ensures i in left + At(s, w).mine * Waiting(s.mails) || Running(t, i) {
      if Running(s, i) {
        var v :| v in s.workers && i in s.workers[v].mine;
        if v != w { assert t.workers[v] == s.workers[v]; }
      }
    }
  }

  lemma NothingWaits(mails: seq<Mail>)
    ensures Waiting(Withdraw(mails)) == {}
    ensures StillOpen(Withdraw(mails)) == StillOpen(mails) - Waiting(mails)
  {
  }

  /** One row of `t` may wait besides those that do in `s`. */
  lemma SpokenRow(s: State, t: State, i: nat, left: set<nat>)
    requires Spoken(s, left) && t.workers == s.workers && t.status == s.status
    requires Waiting(t.mails) <= Waiting(s.mails) + {i}
    ensures Spoken(t, left + Waiting(t.mails) * {i})
  {
    forall k | t.status == Cancelled && k in Waiting(t.mails) ensures k in left + Waiting(t.mails) * {i} || Running(t, k) {
      if Running(s, k) { StillRunning(s, t, 0, k); }
    }
  }

  lemma OneRowWaits(s: State, step: Step)
    requires Enabled(s, step) && (step.SendTest? || step.Deliver? || step.PutBack?)
    ensures var i := if step.SendTest? then |s.mails| else step.i;
            && Waiting(Apply(s, step).mails) - {i} == Waiting(s.mails) - {i}
            && (i in Waiting(Apply(s, step).mails) <==> step.PutBack? && !s.mails[i].isTest)
  {
    var t := Apply(s, step);
    assert forall k :: 0 <= k < |s.mails| && (step.SendTest? || k != step.i) ==> t.mails[k] == s.mails[k];
  }

  lemma SpokenRows(s: State, step: Step, left: set<nat>)
    requires Spoken(s, left) && Enabled(s, step) && (step.SendTest? || step.Deliver? || step.PutBack?)
    ensures Spoken(Apply(s, step), left + (if step.PutBack? && !s.mails[step.i].isTest then {step.i} else {}))
  {
    OneRowWaits(s, step);
    var i := if step.SendTest? then |s.mails| else step.i;
    SpokenRow(s, Apply(s, step), i, left);
  }

  /** What a step adds to the rows left behind. */
  function Leaves(s: State, step: Step): set<nat>
    requires Enabled(s, step)
  {
    match step
    case PutBack(i) => if s.mails[i].isTest then {} else {i}
    case Die(w) => At(s, w).mine * Waiting(s.mails)
    case Raise(w) => At(s, w).mine * Waiting(s.mails)
    case _ => {}
  }

  lemma SpokenStops(s: State, step: Step, left: set<nat>)
    requires Spoken(s, left) && Enabled(s, step) && (step.Release? || step.Die? || step.Raise?)
    ensures Spoken(Apply(s, step), left + Leaves(s, step))
  {
    SpokenLeave(s, step.w, if step.Raise? then Releasing else Idle, left);
    var t := Leave(s, step.w, if step.Raise? then Releasing else Idle);
    assert Apply(s, step).workers == t.workers && Apply(s, step).mails == t.mails && Apply(s, step).status == t.status;
    assert forall i :: Running(t, i) ==> Running(Apply(s, step), i);
  }

  lemma SpokenWithdraws(s: State, step: Step, left: set<nat>)
    requires Spoken(s, left) && Enabled(s, step) && (step.Cancel? || step.WithdrawOwn?)
    ensures Spoken(Apply(s, step), left) && Waiting(Apply(s, step).mails) == {}
  {
    NothingWaits(s.mails);
  }

  lemma SpokenStays(s: State, step: Step, left: set<nat>)
    requires Spoken(s, left) && Enabled(s, step)
    requires Controls(step)
    ensures Spoken(Apply(s, step), left)
  {
    var t := Apply(s, step);
    assert t.workers == s.workers && t.mails == s.mails;
    assert forall i :: Running(s, i) ==> Running(t, i);
  }

  lemma SpokenStep(s: State, step: Step, left: set<nat>)
    requires Spoken(s, left) && Enabled(s, step)
    ensures Spoken(Apply(s, step), left + Leaves(s, step))
  {
    match step {
      case SendNext(_, _) => SpokenSend(s, step, left);
      case SendTest(_, _) => SpokenRows(s, step, left);
      case Deliver(_, _) => SpokenRows(s, step, left);
      case PutBack(_) => SpokenRows(s, step, left);
      case WithdrawOwn(_) => SpokenWithdraws(s, step, left);
      case Cancel => SpokenWithdraws(s, step, left);
      case Release(_) => SpokenStops(s, step, left);
      case Die(_) => SpokenStops(s, step, left);
      case Raise(_) => SpokenStops(s, step, left);
      case _ =>
        if Begins(step) {
          SpokenChunk(s, step, left);
        } else if step.Finish? {
          SpokenFinish(s, step, left);
        } else {
          SpokenStays(s, step, left);
        }
        assert left + Leaves(s, step) == left;
    }
  }

  ghost predicate Cancelling(s: State) {
    Spoken(s, s.revived + s.lost) && s.revived + s.lost <= Waiting(s.mails)
  }

  /** The record names exactly the rows left behind that still wait. */
  ghost predicate Recorded(s: State, t: State, more: set<nat>) {
    && t.revived + t.lost <= Waiting(t.mails)
    && (t.status == Cancelled ==> (s.revived + s.lost + more) * Waiting(t.mails) <= t.revived + t.lost)
  }

  lemma RecordedRows(s: State, step: Step)
    requires Cancelling(s) && Enabled(s, step) && (step.SendTest? || step.Deliver? || step.PutBack?)
    ensures Recorded(s, Apply(s, step), Leaves(s, step))
  {
    OneRowWaits(s, step);
  }

  lemma RecordedMore(s: State, t: State)
    requires Cancelling(s) && s.mails <= t.mails && t.revived == s.revived && t.lost == s.lost
    ensures Recorded(s, t, {})
  {
    assert forall i :: i in Waiting(s.mails) ==> t.mails[i] == s.mails[i];
  }

  lemma RecordedSend(s: State, step: Step)
    requires Cancelling(s) && Enabled(s, step) && step.SendNext?
    ensures Recorded(s, Apply(s, step), {})
  {
    if Adds(s, step.w) { SendAdds(s, step.w, step.blocked); } else { SendSkips(s, step.w, step.blocked); }
    RecordedMore(s, Apply(s, step));
  }

  lemma RecordedMails(s: State, step: Step)
    requires Cancelling(s) && Enabled(s, step) && (step.Cancel? || step.WithdrawOwn?)
    ensures Recorded(s, Apply(s, step), Leaves(s, step))
  {
    NothingWaits(s.mails);
  }

  lemma RecordedStops(s: State, step: Step)
    requires Cancelling(s) && Enabled(s, step) && (step.Die? || step.Raise?)
    ensures Recorded(s, Apply(s, step), Leaves(s, step))
  {
  }

  lemma RecordedOtherwise(s: State, step: Step)
    requires Cancelling(s) && Enabled(s, step) && (Controls(step) || Begins(step) || step.Finish? || step.Release?)
    ensures Recorded(s, Apply(s, step), {})
  {
    if Controls(step) {
      ControlsFrame(s, step);
    } else if Begins(step) {
      BeginsFrame(s, step);
    } else {
      StopsFrame(s, step);
    }
    RecordedMore(s, Apply(s, step));
  }

  lemma RecordedStep(s: State, step: Step)
    requires Cancelling(s) && Enabled(s, step)
    ensures Recorded(s, Apply(s, step), Leaves(s, step))
  {
    if step.SendNext? {
      RecordedSend(s, step);
    } else if step.SendTest? || step.Deliver? || step.PutBack? {
      RecordedRows(s, step);
    } else if step.WithdrawOwn? || step.Cancel? {
      RecordedMails(s, step);
    } else if step.Die? || step.Raise? {
      RecordedStops(s, step);
    } else {
      RecordedOtherwise(s, step);
    }
  }

  lemma CancellingStep(s: State, step: Step)
    requires Cancelling(s) && Enabled(s, step)
    ensures Cancelling(Apply(s, step))
  {
    SpokenStep(s, step, s.revived + s.lost);
    RecordedStep(s, step);
  }

  // ------------------------------------------------------------- completing

  ghost predicate Completing(s: State) {
    && (s.status == Completed ==> s.allOut)
    && (s.listed || s.allOut ==> s.queuedAt)
    && (if s.allOut then StillOpen(s.mails) == s.late + s.retried else s.late + s.retried == {})
    && (s.launched && s.steady == s.ever ==> s.late == {})
  }

  /** When everybody already has a mail, a turn of a chunk adds none. */
  lemma NoMoreToSend(s: State, w: nat)
    requires Coverage(s) && At(s, w).pc.Queuing? && At(s, w).pc.k < |At(s, w).pc.slice|
    requires s.launched && s.steady == s.ever && s.queuedAt
    ensures At(s, w).pc.slice[At(s, w).pc.k] in Recipients(s.mails)
  {
    var pc := At(s, w).pc;
    assert WorkerOk(s, s.workers[w].pc);
    assert pc.slice[pc.k] in pc.slice;
  }

  lemma OneMoreOpen(mails: seq<Mail>, mail: Mail)
    ensures StillOpen(mails + [mail]) == StillOpen(mails) + (if !mail.isTest && Open(mail) then {|mails|} else {})
  {
  }

  lemma CompletingSend(s: State, w: nat, blocked: bool)
    requires Coverage(s) && Completing(s) && Enabled(s, SendNext(w, blocked))
    ensures Completing(Apply(s, SendNext(w, blocked)))
  {
    if Adds(s, w) {
      SendAdds(s, w, blocked);
      OneMoreOpen(s.mails, Fresh(At(s, w).pc.slice[At(s, w).pc.k], blocked));
      assert WorkerOk(s, s.workers[w].pc);
      if s.steady == s.ever && s.queuedAt { NoMoreToSend(s, w); }
    } else {
      SendSkips(s, w, blocked);
    }
  }

  /** Putting another state into a row opens it or closes it. */
  lemma RestatedOpen(mails: seq<Mail>, i: nat, to': Delivery)
    requires i < |mails|
    ensures StillOpen(mails[i := mails[i].(state := to')]) ==
            if mails[i].isTest then StillOpen(mails)
            else if to' == Pending || to' == Claimed then StillOpen(mails) + {i} else StillOpen(mails) - {i}
  {
    var after := mails[i := mails[i].(state := to')];
    assert forall j :: 0 <= j < |mails| && j != i ==> after[j] == mails[j];
  }

  lemma CompletingTest(s: State, step: Step)
    requires Completing(s) && Enabled(s, step) && step.SendTest?
    ensures Completing(Apply(s, step))
  {
    OneMoreOpen(s.mails, Mail(step.author, if step.refused then Suppressed else Pending, true));
  }

  lemma CompletingDeliver(s: State, step: Step)
    requires Completing(s) && Enabled(s, step) && step.Deliver?
    ensures Completing(Apply(s, step))
  {
    RestatedOpen(s.mails, step.i, step.to');
  }

  lemma CompletingPutBack(s: State, step: Step)
    requires Completing(s) && Enabled(s, step) && step.PutBack?
    ensures Completing(Apply(s, step))
  {
    RestatedOpen(s.mails, step.i, Pending);
  }

  lemma CompletingMails(s: State, step: Step)
    requires Completing(s) && Enabled(s, step) && (step.Cancel? || step.WithdrawOwn?)
    ensures Completing(Apply(s, step))
  {
    NothingWaits(s.mails);
  }

  lemma CompletingControls(s: State, step: Step)
    requires Coverage(s) && Completing(s) && Enabled(s, step) && Controls(step)
    ensures Completing(Apply(s, step))
  {
    ControlsFrame(s, step);
  }

  lemma CompletingBegins(s: State, step: Step)
    requires Completing(s) && Enabled(s, step) && Begins(step)
    ensures Completing(Apply(s, step))
  {
    BeginsFrame(s, step);
  }

  lemma CompletingStops(s: State, step: Step)
    requires Completing(s) && Enabled(s, step) && Stops(step)
    ensures Completing(Apply(s, step))
  {
  }

  lemma CompletingStep(s: State, step: Step)
    requires Coverage(s) && Completing(s) && Enabled(s, step)
    ensures Completing(Apply(s, step))
  {
    if step.SendNext? {
      CompletingSend(s, step.w, step.blocked);
    } else if step.SendTest? {
      CompletingTest(s, step);
    } else if step.Deliver? {
      CompletingDeliver(s, step);
    } else if step.PutBack? {
      CompletingPutBack(s, step);
    } else if step.Cancel? || step.WithdrawOwn? {
      CompletingMails(s, step);
    } else if Controls(step) {
      CompletingControls(s, step);
    } else if Begins(step) {
      CompletingBegins(s, step);
    } else {
      CompletingStops(s, step);
    }
  }

  // -------------------------------------------------- one chunk at a time

  ghost predicate Holds(s: State, pc: Pc) {
    match pc
    case Reading(c) => s.queuedUpTo == c && !s.queuedAt
    case LookingUp(c, _, slice) => s.queuedUpTo == c && !s.queuedAt && forall u :: u in slice ==> c < u
    case Queuing(c, _, slice, _, _) => s.queuedUpTo == c && !s.queuedAt && forall u :: u in slice ==> c < u
    case _ => true
  }

  /** As long as the lock never expired under a running chunk, at most one worker
      is in a chunk, it has the lock, and the campaign stands where it started. */
  ghost predicate Exclusive(s: State) {
    !s.overrun ==> forall w :: w in s.workers && !s.workers[w].pc.Idle? ==>
      && s.locked && Holds(s, s.workers[w].pc)
      && forall v :: v in s.workers && !s.workers[v].pc.Idle? ==> v == w
  }

  /** The worker in its chunk goes on, or leaves it. */
  lemma ExclusiveMove(s: State, w: nat, t: State)
    requires Exclusive(s) && !At(s, w).pc.Idle? && w in t.workers
    requires t.overrun == s.overrun && t.workers == s.workers[w := t.workers[w]]
    requires t.workers[w].pc.Idle? || (t.locked == s.locked && (s.overrun || Holds(t, t.workers[w].pc)))
    ensures Exclusive(t)
  {
  }

  lemma ExclusiveSends(s: State, step: Step)
    requires Exclusive(s) && Enabled(s, step) && step.SendNext?
    ensures Exclusive(Apply(s, step))
  {
    if Adds(s, step.w) { SendAdds(s, step.w, step.blocked); } else { SendSkips(s, step.w, step.blocked); }
    ExclusiveMove(s, step.w, Apply(s, step));
  }

  lemma ExclusiveGoesOn(s: State, step: Step)
    requires Exclusive(s) && Enabled(s, step)
    requires step.Flip? || step.Check? || step.Read? || step.LookUp?
    ensures Exclusive(Apply(s, step))
  {
    ExclusiveMove(s, step.w, Apply(s, step));
  }

  lemma ExclusiveEnds(s: State, step: Step)
    requires Exclusive(s) && Enabled(s, step)
    requires step.Finish? || step.WithdrawOwn? || step.Release? || step.Die? || step.Raise?
    ensures Exclusive(Apply(s, step))
  {
    ExclusiveMove(s, step.w, Apply(s, step));
  }

  lemma ExclusiveStep(s: State, step: Step)
    requires Exclusive(s) && Enabled(s, step)
    ensures Exclusive(Apply(s, step))
  {
    if step.SendNext? {
      ExclusiveSends(s, step);
    } else if step.Flip? || step.Check? || step.Read? || step.LookUp? {
      ExclusiveGoesOn(s, step);
    } else if step.Finish? || step.WithdrawOwn? || step.Release? || step.Die? || step.Raise? {
      ExclusiveEnds(s, step);
    }
  }

  lemma CursorFinish(s: State, step: Step)
    requires Exclusive(s) && Enabled(s, step) && step.Finish? && !s.overrun
    ensures s.queuedUpTo <= Apply(s, step).queuedUpTo
  {
    var pc := At(s, step.w).pc;
    assert s.workers[step.w].pc == pc;
    assert Holds(s, pc);
    if pc.slice != [] { assert pc.slice[|pc.slice| - 1] in pc.slice; }
  }

  lemma CursorStays(s: State, step: Step)
    requires Enabled(s, step) && !step.Finish?
    ensures SamePlace(s, Apply(s, step))
  {
    if step.SendNext? {
      CursorSends(s, step);
    } else if Controls(step) {
      ControlsFrame(s, step);
    } else if Begins(step) {
      BeginsFrame(s, step);
    } else if Restates(step) {
      RestatesFrame(s, step);
    } else {
      StopsFrame(s, step);
    }
  }

  lemma CursorSends(s: State, step: Step)
    requires Enabled(s, step) && step.SendNext?
    ensures SamePlace(s, Apply(s, step))
  {
    if Adds(s, step.w) { SendAdds(s, step.w, step.blocked); } else { SendSkips(s, step.w, step.blocked); }
  }

  /** A chunk finishes whose slice ends before where the campaign stands by then. */
  ghost predicate FinishesBehind(s: State, step: Step) {
    && step.Finish? && At(s, step.w).pc.Queuing? && s.status == Sending
    && EndOf(At(s, step.w).pc.slice, At(s, step.w).pc.cursor) < s.queuedUpTo
  }

  /** The stored cursor goes back only after a lock expired under a running chunk, and
      then exactly when a chunk finishes behind it. */
  lemma CursorFallsExactly(s: State, step: Step)
    requires Exclusive(s) && Enabled(s, step)
    ensures Apply(s, step).queuedUpTo < s.queuedUpTo ==> s.overrun
    ensures Apply(s, step).queuedUpTo < s.queuedUpTo <==> FinishesBehind(s, step)
  {
    if step.Finish? {
      if !s.overrun { CursorFinish(s, step); }
    } else {
      CursorStays(s, step);
    }
  }

  lemma CursorStep(s: State, step: Step)
    requires Exclusive(s) && Enabled(s, step) && !Apply(s, step).overrun
    ensures !s.overrun && s.queuedUpTo <= Apply(s, step).queuedUpTo
  {
    if step.Finish? { CursorFinish(s, step); } else { CursorStays(s, step); }
  }

  // ------------------------------------------- which campaigns a chunk enters

  ghost predicate InChunkLoop(pc: Pc) {
    pc.Reading? || pc.LookingUp? || pc.Queuing?
  }

  /** Not launched yet, or over, and no chunk is past its check. */
  ghost predicate Shut(s: State) {
    && s.status in {Draft, Cancelled, Completed}
    && forall w :: w in s.workers ==> !InChunkLoop(s.workers[w].pc)
  }

  /** Nobody new has a mail, and the campaign stands where it stood. */
  ghost predicate NothingQueued(s: State, t: State) {
    Recipients(t.mails) == Recipients(s.mails) && t.queuedUpTo == s.queuedUpTo && t.queuedAt == s.queuedAt
  }

  lemma ShutControls(s: State, step: Step)
    requires Shut(s) && Enabled(s, step) && Controls(step) && !step.Launch?
    ensures Shut(Apply(s, step)) && NothingQueued(s, Apply(s, step))
  {
  }

  lemma ShutBegins(s: State, step: Step)
    requires Shut(s) && Enabled(s, step) && Begins(step)
    ensures Shut(Apply(s, step)) && NothingQueued(s, Apply(s, step))
  {
  }

  lemma ShutStops(s: State, step: Step)
    requires Shut(s) && Enabled(s, step) && Stops(step)
    ensures Shut(Apply(s, step)) && NothingQueued(s, Apply(s, step))
  {
  }

  lemma ShutRestates(s: State, step: Step)
    requires Shut(s) && Enabled(s, step) && Restates(step)
    ensures Shut(Apply(s, step)) && NothingQueued(s, Apply(s, step))
  {
    match step {
      case Cancel => WithdrawKeepsRecipients(s.mails);
      case WithdrawOwn(_) => WithdrawKeepsRecipients(s.mails);
      case SendTest(author, refused) =>
        AppendRecipients(s.mails, Mail(author, if refused then Suppressed else Pending, true));
      case Deliver(i, to') => RestateRow(s.mails, i, to');
      case PutBack(i) => RestateRow(s.mails, i, Pending);
    }
  }

  lemma NobodySends(s: State)
    requires Shut(s)
    ensures forall w, blocked :: !Enabled(s, SendNext(w, blocked))
  {
    forall w, blocked ensures !Enabled(s, SendNext(w, blocked)) {
      if w in s.workers { assert !InChunkLoop(s.workers[w].pc); }
    }
  }

  lemma ShutStep(s: State, step: Step)
    requires Shut(s) && Enabled(s, step) && !step.Launch?
    ensures Shut(Apply(s, step)) && NothingQueued(s, Apply(s, step))
  {
    NobodySends(s);
    if Controls(step) {
      ShutControls(s, step);
    } else if Begins(step) {
      ShutBegins(s, step);
    } else if Stops(step) {
      ShutStops(s, step);
    } else if Restates(step) {
      ShutRestates(s, step);
    }
  }

  /** In every run without a launch from a campaign that is a draft or over, and has no
      chunk past its check: whatever tasks come, with whatever cursor, no chunk ever
      gets past its check, and nobody new gets a mail. */
  lemma {:induction false} ShutStaysShut(s: State, steps: seq<Step>)
    requires Shut(s) && Possible(s, steps) && forall i :: 0 <= i < |steps| ==> !steps[i].Launch?
    ensures Shut(Exec(s, steps)) && NothingQueued(s, Exec(s, steps))
    decreases |steps|
  {
    if steps == [] {
    } else {
      var before := steps[..|steps| - 1];
      assert forall i :: 0 <= i < |before| ==> before[i] == steps[i];
      ShutStaysShut(s, before);
      ShutStep(Exec(s, before), steps[|steps| - 1]);
    }
  }

  // -------------------------------------------------------------- every run

  ghost predicate Inv(s: State) {
    Coverage(s) && Cancelling(s) && Completing(s) && Exclusive(s)
  }

  lemma {:induction false} Always(audience: set<AccountId>, steps: seq<Step>)
    requires Possible(Start(audience), steps)
    ensures Inv(Exec(Start(audience), steps))
    decreases |steps|
  {
    if steps == [] {
    } else {
      var before := steps[..|steps| - 1];
      Always(audience, before);
      var s, step := Exec(Start(audience), before), steps[|steps| - 1];
      CoverageStep(s, step);
      CancellingStep(s, step);
      CompletingStep(s, step);
      ExclusiveStep(s, step);
    }
  }

  /** In every run, whatever crashed, expired or overlapped: every account that
      stayed in the audience has its mail up to the stored cursor, and all of them
      do once queuing is marked done. Nobody outside the audience has one, and
      nobody has two. */
  lemma {:induction false} EveryoneIsMailed(audience: set<AccountId>, steps: seq<Step>)
    requires Possible(Start(audience), steps)
    ensures var s := Exec(Start(audience), steps);
            && (forall u :: u in s.steady && u <= s.queuedUpTo ==> u in Recipients(s.mails))
            && (s.queuedAt ==> s.steady <= Recipients(s.mails))
            && Recipients(s.mails) <= s.ever
            && KeysUnique(s.mails)
  {
    Always(audience, steps);
  }

  /** The stored cursor never goes back in a run in which the lock does not expire
      under a running chunk. */
  lemma {:induction false} CursorNeverGoesBack(audience: set<AccountId>, steps: seq<Step>, k: nat)
    requires Possible(Start(audience), steps) && k <= |steps|
    requires !Exec(Start(audience), steps).overrun
    ensures Possible(Start(audience), steps[..k])
    ensures Exec(Start(audience), steps[..k]).queuedUpTo <= Exec(Start(audience), steps).queuedUpTo
    decreases |steps|
  {
    if k == |steps| {
      assert steps[..k] == steps;
    } else {
      var before := steps[..|steps| - 1];
      Always(audience, before);
      CursorStep(Exec(Start(audience), before), steps[|steps| - 1]);
      CursorNeverGoesBack(audience, before, k);
      assert before[..k] == steps[..k];
    }
  }

  function MailsTo(mails: seq<Mail>, u: AccountId): nat {
    |set i | 0 <= i < |mails| && !mails[i].isTest && mails[i].account == u|
  }

  lemma OneMailEach(mails: seq<Mail>, u: AccountId)
    requires KeysUnique(mails)
    ensures MailsTo(mails, u) == if u in Recipients(mails) then 1 else 0
  {
    var rows := set i | 0 <= i < |mails| && !mails[i].isTest && mails[i].account == u;
    if u in Recipients(mails) {
      var i :| 0 <= i < |mails| && !mails[i].isTest && mails[i].account == u;
      assert rows == {i};
    } else {
      assert rows == {};
    }
  }

  /** A completed campaign: one mail to each account that stayed in the audience,
      none to anybody who never was in it; and what is still open is exactly what was
      put back or added since the job saw nothing open. When the audience never changed
      nothing was added, and exactly the audience has exactly one mail each. */
  lemma {:induction false} CompletedCampaign(start: set<AccountId>, steps: seq<Step>)
    requires Possible(Start(start), steps)
    requires Exec(Start(start), steps).status == Completed
    ensures var s := Exec(Start(start), steps);
            && (forall u :: u in s.steady ==> MailsTo(s.mails, u) == 1)
            && (forall u :: u !in s.ever ==> MailsTo(s.mails, u) == 0)
            && StillOpen(s.mails) == s.late + s.retried
            && (forall i :: 0 <= i < |s.mails| && !s.mails[i].isTest ==>
                  (s.mails[i].state == Pending || s.mails[i].state == Claimed <==> i in s.late + s.retried))
            && (s.steady == s.ever ==>
                  && StillOpen(s.mails) == s.retried
                  && forall u :: MailsTo(s.mails, u) == if u in s.audience then 1 else 0)
  {
    Always(start, steps);
    var s := Exec(Start(start), steps);
    forall u ensures MailsTo(s.mails, u) == if u in Recipients(s.mails) then 1 else 0 {
      OneMailEach(s.mails, u);
    }
  }

  ghost predicate NoChunkRunning(s: State) {
    forall w :: w in s.workers ==> !Busy(s.workers[w].pc)
  }

  /** A cancelled campaign at rest, wherever the cancel landed: the mails that wait to
      go out are exactly those put back in the queue since, and those left waiting by
      a chunk that died since. */
  lemma {:induction false} CancelledCampaign(audience: set<AccountId>, steps: seq<Step>)
    requires Possible(Start(audience), steps)
    requires Exec(Start(audience), steps).status == Cancelled
    requires NoChunkRunning(Exec(Start(audience), steps))
    ensures var s := Exec(Start(audience), steps);
            && Waiting(s.mails) == s.revived + s.lost
            && forall i :: 0 <= i < |s.mails| && !s.mails[i].isTest ==> (s.mails[i].state == Pending <==> i in s.revived + s.lost)
  {
    Always(audience, steps);
  }

  // ------------------------------------------- exactly when a promise is broken

  /** Every waiting mail of a cancelled campaign belongs to a running chunk, which will
      withdraw it. */
  ghost predicate Settled(s: State) {
    Spoken(s, {})
  }

  /** Worker `w` is the only one to withdraw this waiting mail. */
  ghost predicate Alone(s: State, w: nat, i: nat) {
    i in At(s, w).mine && i in Waiting(s.mails) && forall v :: v in s.workers && v != w ==> i !in s.workers[v].mine
  }

  /** In a cancelled campaign: a mail of no running chunk is put back in the queue, or
      a chunk dies with mail that waits. */
  ghost predicate Strands(s: State, step: Step) {
    && s.status == Cancelled
    && ((step.PutBack? && step.i < |s.mails| && !s.mails[step.i].isTest && !Running(s, step.i)) ||
        ((step.Die? || step.Raise?) && exists i :: Alone(s, step.w, i)))
  }

  lemma SettledStops(s: State, step: Step)
    requires Settled(s) && Enabled(s, step) && (step.Die? || step.Raise?)
    ensures Settled(Apply(s, step)) <==> !Strands(s, step)
  {
    var t := Apply(s, step);
    SpokenStep(s, step, {});
    forall i | i in Waiting(s.mails) && i in At(s, step.w).mine ensures Running(t, i) <==> !Alone(s, step.w, i) {
      if v :| v in s.workers && v != step.w && i in s.workers[v].mine { assert t.workers[v] == s.workers[v]; }
    }
  }

  lemma SettledPutBack(s: State, step: Step)
    requires Settled(s) && Enabled(s, step) && step.PutBack?
    ensures Settled(Apply(s, step)) <==> !Strands(s, step)
  {
    var t := Apply(s, step);
    SpokenStep(s, step, {});
    OneRowWaits(s, step);
    assert t.workers == s.workers;
    assert Running(t, step.i) <==> Running(s, step.i);
  }

  /** From a settled campaign a step leaves a waiting mail to nobody exactly when it
      strands one. */
  lemma SettledExactly(s: State, step: Step)
    requires Settled(s) && Enabled(s, step)
    ensures Settled(Apply(s, step)) <==> !Strands(s, step)
  {
    if step.PutBack? {
      SettledPutBack(s, step);
    } else if step.Die? || step.Raise? {
      SettledStops(s, step);
    } else {
      SettledOtherwise(s, step);
    }
  }

  lemma SettledOtherwise(s: State, step: Step)
    requires Settled(s) && Enabled(s, step) && !step.PutBack? && !step.Die? && !step.Raise?
    ensures Settled(Apply(s, step))
  {
    SpokenStep(s, step, {});
    assert {} + Leaves(s, step) == {};
  }

  ghost predicate AlwaysSettled(s: State, steps: seq<Step>)
    requires Possible(s, steps)
    decreases |steps|
  {
    Settled(Exec(s, steps)) && (steps == [] || AlwaysSettled(s, steps[..|steps| - 1]))
  }

  ghost predicate NeverStrands(s: State, steps: seq<Step>)
    requires Possible(s, steps)
    decreases |steps|
  {
    steps == [] ||
    (NeverStrands(s, steps[..|steps| - 1]) && !Strands(Exec(s, steps[..|steps| - 1]), steps[|steps| - 1]))
  }

  /** Over every run: a waiting mail of the cancelled campaign is always going to be
      withdrawn if and only if none was put back from outside a running chunk and no
      chunk died with mail that waits. */
  lemma {:induction false} CancelKeepsItsWord(audience: set<AccountId>, steps: seq<Step>)
    requires Possible(Start(audience), steps)
    ensures AlwaysSettled(Start(audience), steps) <==> NeverStrands(Start(audience), steps)
    ensures var s := Exec(Start(audience), steps);
            NeverStrands(Start(audience), steps) && s.status == Cancelled && NoChunkRunning(s) ==> Waiting(s.mails) == {}
    decreases |steps|
  {
    Always(audience, steps);
    if steps == [] {
    } else {
      var before := steps[..|steps| - 1];
      CancelKeepsItsWord(audience, before);
      if AlwaysSettled(Start(audience), before) {
        SettledExactly(Exec(Start(audience), before), steps[|steps| - 1]);
      }
    }
  }

  /** Once the job saw nothing open, nothing is. */
  ghost predicate Done(s: State) {
    s.allOut ==> StillOpen(s.mails) == {}
  }

  /** After that, a mail of the campaign's own is put back in the queue, or a chunk
      still sends to somebody without one. */
  ghost predicate Reopens(s: State, step: Step) {
    && s.allOut
    && ((step.PutBack? && step.i < |s.mails| && !s.mails[step.i].isTest) ||
        (step.SendNext? && !step.blocked && Adds(s, step.w)))
  }

  lemma DoneRows(s: State, step: Step)
    requires Done(s) && Enabled(s, step) && (step.SendTest? || step.Deliver? || step.PutBack?)
    ensures Done(Apply(s, step)) <==> !Reopens(s, step)
  {
    match step {
      case SendTest(author, refused) => OneMoreOpen(s.mails, Mail(author, if refused then Suppressed else Pending, true));
      case Deliver(i, to') =>
        RestatedOpen(s.mails, i, to');
        if s.allOut { assert i !in StillOpen(s.mails); }
      case PutBack(i) => RestatedOpen(s.mails, i, Pending);
    }
  }

  lemma DoneSend(s: State, step: Step)
    requires Done(s) && Enabled(s, step) && step.SendNext?
    ensures Done(Apply(s, step)) <==> !Reopens(s, step)
  {
    OneMoreOpen(s.mails, Fresh(At(s, step.w).pc.slice[At(s, step.w).pc.k], step.blocked));
    if Adds(s, step.w) { SendAdds(s, step.w, step.blocked); } else { SendSkips(s, step.w, step.blocked); }
  }

  /** From a state in which nothing is open a step opens something exactly then. */
  lemma DoneExactly(s: State, step: Step)
    requires Done(s) && Enabled(s, step)
    ensures Done(Apply(s, step)) <==> !Reopens(s, step)
  {
    if step.SendNext? {
      DoneSend(s, step);
    } else if step.SendTest? || step.Deliver? || step.PutBack? {
      DoneRows(s, step);
    } else {
      DoneOtherwise(s, step);
    }
  }

  lemma DoneOtherwise(s: State, step: Step)
    requires Done(s) && Enabled(s, step)
    requires Controls(step) || Begins(step) || Stops(step) || step.Cancel? || step.WithdrawOwn?
    ensures Done(Apply(s, step))
  {
    NothingWaits(s.mails);
    if Controls(step) {
      ControlsFrame(s, step);
    } else if Begins(step) {
      BeginsFrame(s, step);
    } else if Stops(step) {
      StopsFrame(s, step);
    }
  }

  ghost predicate AlwaysDone(s: State, steps: seq<Step>)
    requires Possible(s, steps)
    decreases |steps|
  {
    Done(Exec(s, steps)) && (steps == [] || AlwaysDone(s, steps[..|steps| - 1]))
  }

  ghost predicate NeverReopens(s: State, steps: seq<Step>)
    requires Possible(s, steps)
    decreases |steps|
  {
    steps == [] ||
    (NeverReopens(s, steps[..|steps| - 1]) && !Reopens(Exec(s, steps[..|steps| - 1]), steps[|steps| - 1]))
  }

  /** Over every run: from the moment the job saw nothing open nothing ever is, if and
      only if no step reopens the campaign; a completed one then has nothing open. */
  lemma {:induction false} CompletedStaysDone(audience: set<AccountId>, steps: seq<Step>)
    requires Possible(Start(audience), steps)
    ensures AlwaysDone(Start(audience), steps) <==> NeverReopens(Start(audience), steps)
    ensures var s := Exec(Start(audience), steps);
            NeverReopens(Start(audience), steps) && s.status == Completed ==> StillOpen(s.mails) == {}
    decreases |steps|
  {
    Always(audience, steps);
    if steps == [] {
    } else {
      var before := steps[..|steps| - 1];
      CompletedStaysDone(audience, before);
      if AlwaysDone(Start(audience), before) {
        DoneExactly(Exec(Start(audience), before), steps[|steps| - 1]);
      }
    }
  }

  // -------------------------------------------------------------- single steps

  /** Row `i` is still there, and as it was if it had left the waiting state and the
      mail engine did not act on it. */
  ghost predicate RowKept(s: State, step: Step, i: nat)
    requires Enabled(s, step) && i < |s.mails|
  {
    var t := Apply(s, step);
    && i < |t.mails|
    && t.mails[i].account == s.mails[i].account && t.mails[i].isTest == s.mails[i].isTest
    && (s.mails[i].state != Pending && !step.Deliver? && !step.PutBack? ==> t.mails[i] == s.mails[i])
  }

  /** Queuing, cancelling and withdrawing never touch a row that already left the
      waiting state, and no step removes a row or moves it. */
  lemma {:induction false} MailOutStaysOut(s: State, step: Step, i: nat)
    requires Enabled(s, step) && i < |s.mails|
    ensures RowKept(s, step, i)
  {
    if step.SendNext? || step.SendTest? {
      RowsOnlyAdded(s, step);
    } else if Controls(step) {
      ControlsFrame(s, step);
    } else if Begins(step) {
      BeginsFrame(s, step);
    } else if Stops(step) {
      StopsFrame(s, step);
    } else {
      RowsRestated(s, step, i);
    }
  }

  lemma RowsRestated(s: State, step: Step, i: nat)
    requires Enabled(s, step) && i < |s.mails|
    requires step.Cancel? || step.WithdrawOwn? || step.Deliver? || step.PutBack?
    ensures RowKept(s, step, i)
  {
    if step.Cancel? || step.WithdrawOwn? { RowWithdrawn(s, step, i); } else { RowRestated(s, step, i); }
  }

  lemma RowWithdrawn(s: State, step: Step, i: nat)
    requires Enabled(s, step) && i < |s.mails| && (step.Cancel? || step.WithdrawOwn?)
    ensures RowKept(s, step, i)
  {
    assert Restated(s, step).mails == Withdraw(s.mails);
  }

  lemma RowRestated(s: State, step: Step, i: nat)
    requires Enabled(s, step) && i < |s.mails| && (step.Deliver? || step.PutBack?)
    ensures RowKept(s, step, i)
  {
    assert Restated(s, step).mails == s.mails[step.i := s.mails[step.i].(state := if step.Deliver? then step.to' else Pending)];
  }

  lemma RowsOnlyAdded(s: State, step: Step)
    requires Enabled(s, step) && (step.SendNext? || step.SendTest?)
    ensures s.mails <= Apply(s, step).mails
  {
    if step.SendNext? { SendOnlyAdds(s, step); }
  }

  lemma SendOnlyAdds(s: State, step: Step)
    requires Enabled(s, step) && step.SendNext?
    ensures s.mails <= Apply(s, step).mails
  {
    if Adds(s, step.w) { SendAdds(s, step.w, step.blocked); } else { SendSkips(s, step.w, step.blocked); }
  }
}

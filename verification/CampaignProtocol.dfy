/** Queuing a campaign's mail as it happens: any number of `queue_chunk` workers,
    each a small program counter, interleaved with launches, cancels, the beat job,
    the mail engine, people changing their mail choices, crashes and the expiry of
    the lock (campaigns/services.py, campaigns/tasks.py, mailing/tasks.py). Every
    query or update of the source is one atomic step. */
module CampaignProtocol {
  import opened Audience
  import opened CampaignMail

  /** Where a worker is in `queue_chunk`. A task may carry any cursor, stale or
      repeated, and each chunk reads the size setting for itself. */
  datatype Pc =
    | Idle
    | Flipping(cursor: nat)
    | Checking(cursor: nat)
    | Reading(cursor: nat)
    | LookingUp(cursor: nat, size: nat, slice: seq<AccountId>)
    | Queuing(cursor: nat, size: nat, slice: seq<AccountId>, k: nat, done: set<AccountId>)
    | Withdrawing
    | Releasing

  /** `mine` are the places of the rows this chunk created. */
  datatype Worker = Worker(pc: Pc, mine: set<nat>)

  /** The campaign and its mail, then what the proofs remember of the run:
      `steady` and `ever` are the accounts in the audience at every moment, and at
      some moment, since the first launch; `listed` whether a beat found the campaign
      sending with its queuing done, and `allOut` whether one then saw nothing open;
      `late` the open rows created and `retried` the open rows put back since then;
      `revived` the waiting rows put back since the campaign was cancelled; `lost` the
      waiting rows of chunks that died since; `overrun` whether the lock ever expired
      under a running chunk. */
  datatype State = State(
    status: Status, queuedUpTo: nat, queuedAt: bool, mails: seq<Mail>, locked: bool,
    audience: set<AccountId>, workers: map<nat, Worker>, listed: bool, allOut: bool,
    launched: bool, steady: set<AccountId>, ever: set<AccountId>,
    late: set<nat>, retried: set<nat>, revived: set<nat>, lost: set<nat>, overrun: bool)

  datatype Step =
    | Launch(to: set<AccountId>)
    | Resubscribe(now: set<AccountId>)
    | Cancel
    | SendTest(author: AccountId, refused: bool)
    | Acquire(w: nat, cursor: nat)
    | Flip(w: nat)
    | Check(w: nat)
    | Read(w: nat, size: nat)
    | LookUp(w: nat)
    | SendNext(w: nat, blocked: bool)
    | Finish(w: nat)
    | WithdrawOwn(w: nat)
    | Release(w: nat)
    | Die(w: nat)
    | Raise(w: nat)
    | LockExpires
    | BeatLists
    | BeatSees
    | BeatCompletes
    | Deliver(i: nat, to': Delivery)
    | PutBack(i: nat)

  function At(s: State, w: nat): Worker {
    if w in s.workers then s.workers[w] else Worker(Idle, {})
  }

  function Move(s: State, w: nat, pc: Pc): State {
    s.(workers := s.workers[w := Worker(pc, At(s, w).mine)])
  }

  function Leave(s: State, w: nat, pc: Pc): State {
    s.(workers := s.workers[w := Worker(pc, {})])
  }

  /** A worker that stops short leaves its rows behind; once the campaign is
      cancelled nobody comes back for those that wait. */
  function Abandon(s: State, w: nat, pc: Pc): State {
    Leave(s, w, pc).(lost := if s.status == Cancelled then s.lost + At(s, w).mine * Waiting(s.mails) else s.lost)
  }

  /** Nothing waits any more: not what was left behind, not what came back. */
  function Withdrawal(s: State): State {
    s.(mails := Withdraw(s.mails), revived := {}, lost := {},
       late := s.late - Waiting(s.mails), retried := s.retried - Waiting(s.mails))
  }

  /** The mail engine settles a row or takes it up. */
  function Delivered(s: State, i: nat, to': Delivery): State
    requires i < |s.mails|
  {
    var settled := if to' == Claimed then {} else {i};
    s.(mails := s.mails[i := s.mails[i].(state := to')], revived := s.revived - {i}, lost := s.lost - {i},
       late := s.late - settled, retried := s.retried - settled)
  }

  /** A row back in the queue: a failed one by hand, one being sent by the clean-up. */
  function BackInQueue(s: State, i: nat): State
    requires i < |s.mails|
  {
    var own := if s.mails[i].isTest then {} else {i};
    s.(mails := s.mails[i := s.mails[i].(state := Pending)],
       retried := if s.allOut && s.mails[i].state == Failed then s.retried + own else s.retried,
       revived := if s.status == Cancelled then s.revived + own else s.revived)
  }

  /** A launch or a cancel checks the status on the object it was given, which may
      have been read long before, so either can land in any state. The mail engine
      updates rows by id: it can settle a row from whatever state it is in. */
  predicate Enabled(s: State, step: Step) {
    match step
    case Launch(_) => true
    case Resubscribe(_) => true
    case Cancel => true
    case SendTest(_, _) => true
    case Acquire(w, _) => At(s, w).pc.Idle? && !s.locked
    case Flip(w) => At(s, w).pc.Flipping?
    case Check(w) => At(s, w).pc.Checking?
    case Read(w, _) => At(s, w).pc.Reading?
    case LookUp(w) => At(s, w).pc.LookingUp?
    case SendNext(w, _) => At(s, w).pc.Queuing? && At(s, w).pc.k < |At(s, w).pc.slice|
    case Finish(w) => At(s, w).pc.Queuing? && At(s, w).pc.k == |At(s, w).pc.slice|
    case WithdrawOwn(w) => At(s, w).pc.Withdrawing?
    case Release(w) => At(s, w).pc.Releasing?
    case Die(w) => !At(s, w).pc.Idle?
    case Raise(w) => !At(s, w).pc.Idle?
    case LockExpires => s.locked
    case BeatLists => s.status == Sending && s.queuedAt
    case BeatSees => s.listed && StillOpen(s.mails) == {}
    case BeatCompletes => s.allOut
    case Deliver(i, to') =>
      && i < |s.mails| && to' != Pending
      && (to' == Claimed ==> s.mails[i].state == Pending)
    case PutBack(i) => i < |s.mails| && s.mails[i].state in {Claimed, Failed}
  }

  /** The steps by what they can touch: the campaign's own fields and the beat job, ... */
  predicate Controls(step: Step) {
    step.Launch? || step.Resubscribe? || step.LockExpires? || step.BeatLists? || step.BeatSees? || step.BeatCompletes?
  }

  /** ... a chunk on its way to its loop, ... */
  predicate Begins(step: Step) {
    step.Acquire? || step.Flip? || step.Check? || step.Read? || step.LookUp?
  }

  /** ... a chunk on its way out, ... */
  predicate Stops(step: Step) {
    step.Finish? || step.Release? || step.Die? || step.Raise?
  }

  /** ... and mail rows, one or many, outside a chunk's loop. */
  predicate Restates(step: Step) {
    step.SendTest? || step.Deliver? || step.PutBack? || step.Cancel? || step.WithdrawOwn?
  }

  /** Some worker is in a chunk. */
  predicate InChunk(s: State) {
    exists w :: w in s.workers && !s.workers[w].pc.Idle?
  }

  function Apply(s: State, step: Step): State
    requires Enabled(s, step)
  {
    if Controls(step) then Controlled(s, step)
    else if Begins(step) then Begun(s, step)
    else if Stops(step) then Stopped(s, step)
    else if Restates(step) then Restated(s, step)
    else SendOne(s, step.w, step.blocked)
  }

  function Controlled(s: State, step: Step): State
    requires Enabled(s, step) && Controls(step)
  {
    match step
    case Launch(to) =>
      s.(status := Queued, audience := to, launched := true,
         steady := if s.launched then s.steady * to else to, ever := s.ever + to)
    case Resubscribe(now) =>
      s.(audience := now, steady := if s.launched then s.steady * now else s.steady,
         ever := if s.launched then s.ever + now else s.ever)
    case LockExpires =>
      s.(locked := false, overrun := s.overrun || InChunk(s))
    case BeatLists => s.(listed := true)
    case BeatSees => s.(allOut := true)
    case BeatCompletes => s.(status := if s.status == Sending then Completed else s.status)
  }

  function Begun(s: State, step: Step): State
    requires Enabled(s, step) && Begins(step)
  {
    match step
    case Acquire(w, cursor) => Move(s, w, Flipping(cursor)).(locked := true)
    case Flip(w) =>
      Move(s, w, Checking(At(s, w).pc.cursor)).(status := if s.status == Queued then Sending else s.status)
    case Check(w) =>
      var cursor := At(s, w).pc.cursor;
      Move(s, w, if s.status != Sending || s.queuedAt || s.queuedUpTo != cursor then Releasing else Reading(cursor))
    case Read(w, size) =>
      var cursor := At(s, w).pc.cursor;
      Move(s, w, LookingUp(cursor, size, Slice(s.audience, cursor, size)))
    case LookUp(w) =>
      var pc := At(s, w).pc;
      Move(s, w, Queuing(pc.cursor, pc.size, pc.slice, 0, Members(pc.slice) * Recipients(s.mails)))
  }

  function Stopped(s: State, step: Step): State
    requires Enabled(s, step) && Stops(step)
  {
    match step
    case Finish(w) =>
      var pc, counts := At(s, w).pc, s.status == Sending;
      s.(workers := s.workers[w := if counts then Worker(Releasing, {}) else Worker(Withdrawing, At(s, w).mine)],
         queuedUpTo := if counts then EndOf(pc.slice, pc.cursor) else s.queuedUpTo,
         queuedAt := s.queuedAt || (counts && |pc.slice| < pc.size))
    case Release(w) => Leave(s, w, Idle).(locked := false)
    case Die(w) => Abandon(s, w, Idle)
    case Raise(w) => Abandon(s, w, Releasing)
  }

  function Restated(s: State, step: Step): State
    requires Enabled(s, step) && Restates(step)
  {
    match step
    case Cancel => Withdrawal(s).(status := Cancelled)
    case SendTest(author, refused) =>
      s.(mails := s.mails + [Mail(author, if refused then Suppressed else Pending, true)])
    case WithdrawOwn(w) => Withdrawal(Leave(s, w, Releasing))
    case Deliver(i, to') => Delivered(s, i, to')
    case PutBack(i) => BackInQueue(s, i)
  }

  /** One turn of a chunk's loop: skip an account whose key was in use when the
      chunk looked, else send, which itself makes no second row. */
  function SendOne(s: State, w: nat, blocked: bool): State
    requires Enabled(s, SendNext(w, blocked))
  {
    var pc := At(s, w).pc;
    var u := pc.slice[pc.k];
    var adds := u !in pc.done && u !in Recipients(s.mails);
    var row := if adds then {|s.mails|} else {};
    s.(mails := if adds then SendTo(s.mails, u, blocked) else s.mails,
       workers := s.workers[w := Worker(pc.(k := pc.k + 1), At(s, w).mine + row)],
       late := if s.allOut && !blocked then s.late + row else s.late)
  }

  function Start(audience: set<AccountId>): State {
    State(Draft, 0, false, [], false, audience, map[], false, false, false, {}, {}, {}, {}, {}, {}, false)
  }

  predicate Possible(s: State, steps: seq<Step>)
    decreases |steps|, 0
  {
    steps == [] || (Possible(s, steps[..|steps| - 1]) && Enabled(Exec(s, steps[..|steps| - 1]), steps[|steps| - 1]))
  }

  function Exec(s: State, steps: seq<Step>): State
    requires Possible(s, steps)
    decreases |steps|, 1
  {
    if steps == [] then s else Apply(Exec(s, steps[..|steps| - 1]), steps[|steps| - 1])
  }

  /** What the runs range over: anybody may launch, cancel, change their mail choices or
      send a test at any moment; any worker in a chunk may die or fail, and any lock
      expire; and the mail engine may settle any row, take up one that waits, and have
      one that was taken up or failed put back. */
  lemma AnythingMayHappen(s: State, to: set<AccountId>, author: AccountId, refused: bool, w: nat, i: nat, to': Delivery)
    ensures Enabled(s, Launch(to)) && Enabled(s, Cancel) && Enabled(s, Resubscribe(to)) && Enabled(s, SendTest(author, refused))
    ensures w in s.workers && !s.workers[w].pc.Idle? ==> Enabled(s, Die(w)) && Enabled(s, Raise(w))
    ensures Enabled(s, LockExpires) <==> s.locked
    ensures i < |s.mails| && to' != Pending && to' != Claimed ==> Enabled(s, Deliver(i, to'))
    ensures i < |s.mails| && s.mails[i].state == Pending ==> Enabled(s, Deliver(i, Claimed))
    ensures i < |s.mails| && s.mails[i].state in {Claimed, Failed} ==> Enabled(s, PutBack(i))
  {
  }

  // ---------------------------------------------------- what steps leave alone

  /** No mail is touched, nor what is remembered of it. */
  predicate SameMails(s: State, t: State) {
    t.mails == s.mails && t.revived == s.revived && t.late == s.late && t.retried == s.retried
  }

  /** The campaign stands where it stood. */
  predicate SamePlace(s: State, t: State) {
    t.queuedUpTo == s.queuedUpTo && (s.overrun ==> t.overrun)
  }

  lemma ControlsFrame(s: State, step: Step)
    requires Enabled(s, step) && Controls(step)
    ensures SameMails(s, Apply(s, step)) && SamePlace(s, Apply(s, step))
    ensures Apply(s, step).workers == s.workers && Apply(s, step).lost == s.lost
  {
  }

  /** What a chunk leaves alone on its way to its loop. */
  predicate OnItsWay(s: State, t: State) {
    && SameMails(s, t) && SamePlace(s, t) && t.lost == s.lost
    && t.queuedAt == s.queuedAt && t.listed == s.listed && t.allOut == s.allOut
    && t.launched == s.launched && t.steady == s.steady && t.ever == s.ever
    && (t.status == Completed ==> s.status == Completed)
  }

  lemma BeginsFrame(s: State, step: Step)
    requires Enabled(s, step) && Begins(step)
    ensures OnItsWay(s, Apply(s, step))
  {
  }

  /** And on its way out, apart from the place a finished chunk writes down and the
      rows a dead one leaves. */
  predicate OnItsWayOut(s: State, step: Step, t: State) {
    && SameMails(s, t) && t.overrun == s.overrun
    && (!step.Finish? ==> t.queuedUpTo == s.queuedUpTo)
    && (step.Finish? || step.Release? ==> t.lost == s.lost)
  }

  lemma StopsFrame(s: State, step: Step)
    requires Enabled(s, step) && Stops(step)
    ensures OnItsWayOut(s, step, Apply(s, step))
  {
  }

  lemma RestatesFrame(s: State, step: Step)
    requires Enabled(s, step) && Restates(step)
    ensures SamePlace(s, Apply(s, step))
  {
  }

  // ---------------------------------------------------------------- coverage

  /** Everyone steady up to `cursor` has a mail. */
  ghost predicate Covered(s: State, cursor: nat) {
    forall u :: u in s.steady && u <= cursor ==> u in Recipients(s.mails)
  }

  ghost predicate SliceOk(s: State, cursor: nat, size: nat, slice: seq<AccountId>) {
    && (forall u :: u in slice ==> u in s.ever && cursor < u)
    && (forall u :: u in s.steady && cursor < u && (u <= EndOf(slice, cursor) || |slice| < size) ==> u in slice)
  }

  ghost predicate WorkerOk(s: State, pc: Pc) {
    match pc
    case Reading(c) => s.launched && Covered(s, c)
    case LookingUp(c, n, slice) => s.launched && Covered(s, c) && SliceOk(s, c, n, slice)
    case Queuing(c, n, slice, k, done) =>
      && s.launched && Covered(s, c) && SliceOk(s, c, n, slice)
      && k <= |slice| && done <= Recipients(s.mails)
      && forall j :: 0 <= j < k ==> slice[j] in Recipients(s.mails)
    case _ => true
  }

  ghost predicate Coverage(s: State) {
    && KeysUnique(s.mails)
    && Recipients(s.mails) <= s.ever
    && (s.launched ==> s.steady <= s.audience <= s.ever)
    && (!s.launched ==> s.steady == {} && s.status in {Draft, Cancelled})
    && Covered(s, s.queuedUpTo)
    && (s.queuedAt ==> s.steady <= Recipients(s.mails))
    && (!s.launched ==> s.queuedUpTo == 0 && !s.queuedAt)
    && forall w :: w in s.workers ==> WorkerOk(s, s.workers[w].pc)
  }

  /** Nothing a worker relies on is taken away by mail being added or by people
      leaving the audience. */
  lemma WorkerOkStays(s: State, t: State, pc: Pc)
    requires WorkerOk(s, pc)
    requires s.launched ==> t.launched && t.steady <= s.steady
    requires s.ever <= t.ever && Recipients(s.mails) <= Recipients(t.mails)
    ensures WorkerOk(t, pc)
  {
  }

  /** A step that changes nothing but the workers keeps coverage when the new
      workers are in order. */
  lemma CoverageFrame(s: State, t: State)
    requires Coverage(s)
    requires t.queuedUpTo == s.queuedUpTo && t.queuedAt == s.queuedAt && t.launched == s.launched
    requires t.audience == s.audience && t.steady == s.steady && t.ever == s.ever
    requires !s.launched ==> t.status in {Draft, Cancelled}
    requires KeysUnique(t.mails) && Recipients(s.mails) <= Recipients(t.mails) <= s.ever
    requires forall w :: w in t.workers ==>
               (w in s.workers && t.workers[w] == s.workers[w]) || WorkerOk(t, t.workers[w].pc)
    ensures Coverage(t)
  {
  }

  /** Changing the state of a row changes no key. */
  lemma RestateRow(mails: seq<Mail>, i: nat, to': Delivery)
    requires i < |mails|
    ensures Recipients(mails[i := mails[i].(state := to')]) == Recipients(mails)
    ensures KeysUnique(mails) ==> KeysUnique(mails[i := mails[i].(state := to')])
  {
    var after := mails[i := mails[i].(state := to')];
    assert forall j :: 0 <= j < |mails| ==> after[j].account == mails[j].account && after[j].isTest == mails[j].isTest;
    forall u ensures u in Recipients(after) <==> u in Recipients(mails) {
      if u in Recipients(mails) {
        var j :| 0 <= j < |mails| && !mails[j].isTest && mails[j].account == u;
        assert !after[j].isTest && after[j].account == u;
      }
      if u in Recipients(after) {
        var j :| 0 <= j < |after| && !after[j].isTest && after[j].account == u;
        assert !mails[j].isTest && mails[j].account == u;
      }
    }
  }

  lemma CoverageWithdraws(s: State, step: Step)
    requires Coverage(s) && Enabled(s, step) && (step.Cancel? || step.WithdrawOwn?)
    ensures Coverage(Apply(s, step))
  {
    WithdrawKeepsRecipients(s.mails);
    CoverageFrame(s, Apply(s, step));
  }

  lemma CoverageRow(s: State, step: Step)
    requires Coverage(s) && Enabled(s, step) && (step.Deliver? || step.PutBack?)
    ensures Coverage(Apply(s, step))
  {
    RestateRow(s.mails, step.i, if step.Deliver? then step.to' else Pending);
    CoverageFrame(s, Apply(s, step));
  }

  lemma CoverageTest(s: State, step: Step)
    requires Coverage(s) && Enabled(s, step) && step.SendTest?
    ensures Coverage(Apply(s, step))
  {
    AppendRecipients(s.mails, Mail(step.author, if step.refused then Suppressed else Pending, true));
    CoverageFrame(s, Apply(s, step));
  }

  lemma CoverageAudience(s: State, step: Step)
    requires Coverage(s) && Enabled(s, step)
    requires step.Launch? || step.Resubscribe?
    ensures Coverage(Apply(s, step))
  {
    var t := Apply(s, step);
    assert t.mails == s.mails && t.workers == s.workers && s.ever <= t.ever;
    assert s.launched ==> t.steady <= s.steady;
    forall w | w in t.workers ensures WorkerOk(t, t.workers[w].pc) {
      WorkerOkStays(s, t, s.workers[w].pc);
    }
  }

  lemma CoverageEnters(s: State, step: Step)
    requires Coverage(s) && Enabled(s, step) && (step.Acquire? || step.Flip?)
    ensures Coverage(Apply(s, step))
  {
    CoverageFrame(s, Apply(s, step));
  }

  lemma CoverageCheck(s: State, step: Step)
    requires Coverage(s) && Enabled(s, step) && step.Check?
    ensures Coverage(Apply(s, step))
  {
    CoverageFrame(s, Apply(s, step));
  }

  lemma CoverageLookUp(s: State, step: Step)
    requires Coverage(s) && Enabled(s, step) && step.LookUp?
    ensures Coverage(Apply(s, step))
  {
    assert WorkerOk(s, s.workers[step.w].pc);
    CoverageFrame(s, Apply(s, step));
  }

  lemma CoverageControl(s: State, step: Step)
    requires Coverage(s) && Enabled(s, step)
    requires step.Release? || step.Die? || step.Raise? || step.LockExpires? || step.BeatLists? || step.BeatSees? ||
             step.BeatCompletes?
    ensures Coverage(Apply(s, step))
  {
    CoverageFrame(s, Apply(s, step));
  }

  lemma CoverageRead(s: State, w: nat, size: nat)
    requires Coverage(s) && Enabled(s, Read(w, size))
    ensures Coverage(Apply(s, Read(w, size)))
  {
    var c := At(s, w).pc.cursor;
    assert WorkerOk(s, s.workers[w].pc);
    var slice := Slice(s.audience, c, size);
    forall u | u in s.steady && c < u && (u <= EndOf(slice, c) || |slice| < size) ensures u in slice {
      SliceIsComplete(s.audience, c, size, u);
    }
    CoverageFrame(s, Apply(s, Read(w, size)));
  }

  /** The worker that just sent, one account further on. */
  lemma SenderOk(s: State, t: State, pc: Pc)
    requires WorkerOk(s, pc) && pc.Queuing? && pc.k < |pc.slice|
    requires t.launched == s.launched && t.steady == s.steady && t.ever == s.ever
    requires Recipients(t.mails) == Recipients(s.mails) + {pc.slice[pc.k]}
    ensures WorkerOk(t, pc.(k := pc.k + 1))
  {
  }

  /** This turn adds a row: the account had no mail yet. */
  predicate Adds(s: State, w: nat) {
    && At(s, w).pc.Queuing? && At(s, w).pc.k < |At(s, w).pc.slice|
    && At(s, w).pc.slice[At(s, w).pc.k] !in At(s, w).pc.done + Recipients(s.mails)
  }

  lemma SendSkips(s: State, w: nat, blocked: bool)
    requires Enabled(s, SendNext(w, blocked)) && !Adds(s, w)
    ensures Apply(s, SendNext(w, blocked)) == Move(s, w, At(s, w).pc.(k := At(s, w).pc.k + 1))
  {
    var none: set<nat> := {};
    assert At(s, w).mine + none == At(s, w).mine && s.late + none == s.late;
  }

  lemma SendAdds(s: State, w: nat, blocked: bool)
    requires Enabled(s, SendNext(w, blocked)) && Adds(s, w)
    ensures var pc := At(s, w).pc;
            Apply(s, SendNext(w, blocked)) == s.(
              mails := s.mails + [Fresh(pc.slice[pc.k], blocked)],
              workers := s.workers[w := Worker(pc.(k := pc.k + 1), At(s, w).mine + {|s.mails|})],
              late := if s.allOut && !blocked then s.late + {|s.mails|} else s.late)
  {
  }

  lemma SendFrame(s: State, w: nat, blocked: bool)
    requires Enabled(s, SendNext(w, blocked)) && At(s, w).pc.done <= Recipients(s.mails)
    ensures var pc, t := At(s, w).pc, Apply(s, SendNext(w, blocked));
            && t.mails == SendTo(s.mails, pc.slice[pc.k], blocked)
            && At(t, w).pc == pc.(k := pc.k + 1)
            && t == s.(mails := t.mails, late := t.late, workers := s.workers[w := At(t, w)])
  {
    if Adds(s, w) { SendAdds(s, w, blocked); } else { SendSkips(s, w, blocked); }
  }

  /** Whichever way a turn goes, the account has a mail after it, every earlier
      row is where it was, and only this worker and its history moved. */
  lemma SendEffect(s: State, w: nat, blocked: bool)
    requires Enabled(s, SendNext(w, blocked)) && At(s, w).pc.done <= Recipients(s.mails)
    ensures var pc, t := At(s, w).pc, Apply(s, SendNext(w, blocked));
            var u := pc.slice[pc.k];
            && t.mails == SendTo(s.mails, u, blocked)
            && Recipients(t.mails) == Recipients(s.mails) + {u}
            && (KeysUnique(s.mails) ==> KeysUnique(t.mails))
            && At(t, w).pc == pc.(k := pc.k + 1)
            && t == s.(mails := t.mails, late := t.late, workers := s.workers[w := At(t, w)])
  {
    SendFrame(s, w, blocked);
    SendToSpec(s.mails, At(s, w).pc.slice[At(s, w).pc.k], blocked);
  }

  lemma CoverageSend(s: State, w: nat, blocked: bool)
    requires Coverage(s) && Enabled(s, SendNext(w, blocked))
    ensures Coverage(Apply(s, SendNext(w, blocked)))
  {
    var pc, t := At(s, w).pc, Apply(s, SendNext(w, blocked));
    assert WorkerOk(s, s.workers[w].pc);
    SendEffect(s, w, blocked);
    SenderOk(s, t, pc);
    assert pc.slice[pc.k] in pc.slice;
    assert forall v :: v in t.workers ==> v == w || t.workers[v] == s.workers[v];
    CoverageFrame(s, t);
  }

  lemma CoverageFinish(s: State, w: nat)
    requires Coverage(s) && Enabled(s, Finish(w))
    ensures Coverage(Apply(s, Finish(w)))
  {
    var pc, t := At(s, w).pc, Apply(s, Finish(w));
    assert WorkerOk(s, s.workers[w].pc);
    assert forall u :: u in pc.slice ==> u in Recipients(s.mails);
    forall v | v in t.workers ensures WorkerOk(t, t.workers[v].pc) {
      if v != w { WorkerOkStays(s, t, s.workers[v].pc); }
    }
  }

  lemma CoverageStep(s: State, step: Step)
    requires Coverage(s) && Enabled(s, step)
    ensures Coverage(Apply(s, step))
  {
    match step {
      case Launch(_) => CoverageAudience(s, step);
      case Resubscribe(_) => CoverageAudience(s, step);
      case Cancel => CoverageWithdraws(s, step);
      case SendTest(_, _) => CoverageTest(s, step);
      case WithdrawOwn(_) => CoverageWithdraws(s, step);
      case Deliver(_, _) => CoverageRow(s, step);
      case PutBack(_) => CoverageRow(s, step);
      case Read(w, size) => CoverageRead(s, w, size);
      case SendNext(w, blocked) => CoverageSend(s, w, blocked);
      case Finish(w) => CoverageFinish(s, w);
      case Acquire(_, _) => CoverageEnters(s, step);
      case Flip(_) => CoverageEnters(s, step);
      case Check(_) => CoverageCheck(s, step);
      case LookUp(_) => CoverageLookUp(s, step);
      case _ => CoverageControl(s, step);
    }
  }
}

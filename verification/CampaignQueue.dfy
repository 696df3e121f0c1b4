/** The campaign services as one caller sees them: launching, cancelling, queuing
    a chunk, queuing everything, and the every-minute job (campaigns/services.py).
    Interleavings of several workers are in CampaignProtocol. */
module CampaignQueue {
  import opened Basics
  import opened Audience
  import opened CampaignMail
  import DojoLimit

  /** What the database holds about a campaign while its mail is queued. */
  datatype Standing = Standing(status: Status, queuedUpTo: nat, queuedAt: Option<int>, mails: seq<Mail>)

  datatype ChunkResult = ChunkResult(after: Standing, queued: nat, next: Option<nat>)

  /** The frozen definition of an audience, in the language of segments. */
  type Definition = int

  /** What the checks before a launch look at, for a campaign of the organisation or a
      dojo's mailing. */
  datatype Plan =
    | Plan(canOptOut: bool, template: bool, segment: Option<Definition>, matchesAnybody: bool)
    | DojoPlan(fits: bool, definition: Option<Definition>, wanted: bool, written: bool, replyAddress: bool,
               toFamilies: bool, launches: nat, limit: nat, template: bool)

  datatype Problem =
    | NotDraft | NotOptional | NoTemplate | NoSegment | MatchesNobody
    | WrongKind | BadAudience | WantedByNobody | NothingWritten | NoReplyAddress | TooMany

  function Target(plan: Plan): Option<Definition> {
    match plan
    case Plan(_, _, segment, _) => segment
    case DojoPlan(_, definition, _, _, _, _, _, _, _) => definition
  }

  /** Problem `p` stands in the way of launching. */
  predicate Hinders(p: Problem, status: Status, plan: Plan) {
    match p
    case NotDraft => status != Draft
    case NotOptional => plan.Plan? && !plan.canOptOut
    case NoTemplate => !plan.template
    case NoSegment => plan.Plan? && plan.segment == None
    case MatchesNobody => plan.Plan? && plan.segment.Some? && !plan.matchesAnybody
    case WrongKind => plan.DojoPlan? && !plan.fits
    case BadAudience => plan.DojoPlan? && plan.definition == None
    case WantedByNobody => plan.DojoPlan? && plan.definition.Some? && !plan.wanted
    case NothingWritten => plan.DojoPlan? && !plan.written
    case NoReplyAddress => plan.DojoPlan? && !plan.replyAddress
    case TooMany => plan.DojoPlan? && plan.toFamilies && status == Draft && plan.limit <= plan.launches
  }

  /** What may be launched: a draft with its layout; of the organisation, a kind of mail
      people can switch off, to a segment that matches somebody; of a dojo, a mailing of
      the audience's kind that somebody wants, with a text, an address for replies and,
      to families, room for one more. */
  lemma LaunchableExactly(status: Status, plan: Plan)
    ensures (forall p :: !Hinders(p, status, plan)) <==>
            && status == Draft && plan.template && Target(plan).Some?
            && match plan
               case Plan(canOptOut, _, _, matchesAnybody) => canOptOut && matchesAnybody
               case DojoPlan(fits, _, wanted, written, replyAddress, toFamilies, launches, limit, _) =>
                 fits && wanted && written && replyAddress && (toFamilies ==> launches < limit)
  {
    if forall p :: !Hinders(p, status, plan) {
      assert !Hinders(NotDraft, status, plan) && !Hinders(NotOptional, status, plan) && !Hinders(NoTemplate, status, plan);
      assert !Hinders(NoSegment, status, plan) && !Hinders(MatchesNobody, status, plan) && !Hinders(WrongKind, status, plan);
      assert !Hinders(BadAudience, status, plan) && !Hinders(WantedByNobody, status, plan);
      assert !Hinders(NothingWritten, status, plan) && !Hinders(NoReplyAddress, status, plan) && !Hinders(TooMany, status, plan);
    }
  }

  /** The limit among the problems is the one that DojoLimit is about. */
  lemma TooManyIsTheLimit(status: Status, plan: Plan, s: DojoLimit.State)
    requires plan.DojoPlan? && plan.launches == DojoLimit.DojoLaunches(s) && plan.limit == s.limit && status == Draft
    ensures Hinders(TooMany, status, plan) <==> !DojoLimit.Enabled(s, DojoLimit.Launch(plan.toFamilies))
  {
  }

  /** A launched campaign whose mail is not all queued: the only kind a chunk adds to. */
  predicate Unfinished(c: Standing) {
    (c.status == Queued || c.status == Sending) && c.queuedAt == None
  }

  /** The effect of `queue_chunk` when nobody else has the campaign's lock. */
  function Chunk(c: Standing, audience: set<AccountId>, blocked: set<AccountId>, size: nat, cursor: nat, now: int): ChunkResult {
    var flipped := if c.status == Queued then c.(status := Sending) else c;
    if flipped.status != Sending || c.queuedAt != None || c.queuedUpTo != cursor then
      ChunkResult(flipped, 0, None)
    else
      var slice := Slice(audience, cursor, size);
      var mails := SinglePass(c.mails, slice, blocked);
      PassSpec(c.mails, slice, blocked);
      var finished := |slice| < size;
      var end := EndOf(slice, cursor);
      ChunkResult(Standing(Sending, end, if finished then Some(now) else None, mails),
                  |mails| - |c.mails|,
                  if finished then None else Some(end))
  }

  /** A chunk that starts from this cursor does something. */
  predicate Takes(c: Standing, cursor: nat) {
    Unfinished(c) && c.queuedUpTo == cursor
  }

  /** The effect of a chunk during which the campaign is cancelled, wherever in it: the
      cursor stays, and what the whole chunk would have added is withdrawn. */
  function CutShort(c: Standing, audience: set<AccountId>, blocked: set<AccountId>, size: nat, cursor: nat): ChunkResult
    requires Takes(c, cursor)
  {
    var mails := SinglePass(c.mails, Slice(audience, cursor, size), blocked);
    PassSpec(c.mails, Slice(audience, cursor, size), blocked);
    ChunkResult(c.(status := Cancelled, mails := Withdraw(mails)), |mails| - |c.mails|, None)
  }

  /** A chunk counts the rows it added, and gives everyone of its slice a mail, exactly if
      it takes. */
  lemma ChunkSpec(c: Standing, audience: set<AccountId>, blocked: set<AccountId>, size: nat, cursor: nat, now: int)
    ensures var r := Chunk(c, audience, blocked, size, cursor, now);
            && r.queued == |r.after.mails| - |c.mails| && c.mails <= r.after.mails
            && (Takes(c, cursor) ==> r.after.status == Sending)
            && (Takes(c, cursor) ==>
                  Recipients(r.after.mails) == Recipients(c.mails) + Members(Slice(audience, cursor, size)))
            && (!Takes(c, cursor) ==>
                  r.next == None && r.after == c.(status := if c.status == Queued then Sending else c.status))
  {
    PassSpec(c.mails, Slice(audience, cursor, size), blocked);
  }

  /** A chunk during which the campaign is cancelled leaves no mail waiting and the cursor
      where it was; it counts what it added, and there is no next one. */
  lemma CutShortSpec(c: Standing, audience: set<AccountId>, blocked: set<AccountId>, size: nat, cursor: nat, now: int)
    requires Takes(c, cursor)
    ensures var r := CutShort(c, audience, blocked, size, cursor);
            && r.after.status == Cancelled && r.after.queuedUpTo == c.queuedUpTo && r.after.queuedAt == None && r.next == None
            && (forall i :: 0 <= i < |r.after.mails| ==> r.after.mails[i].state != Pending)
            && Recipients(r.after.mails) == Recipients(c.mails) + Members(Slice(audience, cursor, size))
            && r.queued == |r.after.mails| - |c.mails| == Chunk(c, audience, blocked, size, cursor, now).queued
            && forall i :: 0 <= i < |c.mails| && c.mails[i].state != Pending ==> r.after.mails[i] == c.mails[i]
  {
    var mails := SinglePass(c.mails, Slice(audience, cursor, size), blocked);
    PassSpec(c.mails, Slice(audience, cursor, size), blocked);
    WithdrawKeepsRecipients(mails);
  }

  /** The reference for `queue_mail`: one pass over everybody after the cursor. */
  function OneShot(c: Standing, audience: set<AccountId>, blocked: set<AccountId>, now: int): Standing
    requires Unfinished(c)
  {
    var everyone := InOrder(After(audience, c.queuedUpTo));
    Standing(Sending, EndOf(everyone, c.queuedUpTo), Some(now), SinglePass(c.mails, everyone, blocked))
  }

  /** The next slice and the rest, as one pass over all of it would take them. */
  lemma SliceSplitsPass(mails: seq<Mail>, audience: set<AccountId>, blocked: set<AccountId>, size: nat, cursor: nat)
    ensures var slice := Slice(audience, cursor, size);
            var end := EndOf(slice, cursor);
            var rest := InOrder(After(audience, end));
            var everyone := InOrder(After(audience, cursor));
            && SinglePass(SinglePass(mails, slice, blocked), rest, blocked) == SinglePass(mails, everyone, blocked)
            && EndOf(rest, end) == EndOf(everyone, cursor)
            && (|slice| < size ==> rest == [])
  {
    var slice := Slice(audience, cursor, size);
    var rest := InOrder(After(audience, EndOf(slice, cursor)));
    SliceThenRest(audience, cursor, size);
    PassAppends(mails, slice, rest, blocked);
    if |slice| < size && rest != [] {
      ShortSliceIsAll(audience, cursor, size, rest[0]);
    }
  }

  lemma ShortSliceIsAll(audience: set<AccountId>, cursor: nat, size: nat, u: AccountId)
    requires |Slice(audience, cursor, size)| < size
    ensures u !in InOrder(After(audience, EndOf(Slice(audience, cursor, size), cursor)))
  {
    var slice := Slice(audience, cursor, size);
    if u in audience && EndOf(slice, cursor) < u && cursor < u {
      SliceIsComplete(audience, cursor, size, u);
    }
    assert slice != [] ==> slice[|slice| - 1] in slice;
  }

  /** A chunk followed by one pass over the rest is one pass over everything,
      and a chunk that says it was the last one was the whole pass. */
  lemma ChunkThenRest(c: Standing, audience: set<AccountId>, blocked: set<AccountId>, size: nat, now: int)
    requires Unfinished(c)
    ensures var r := Chunk(c, audience, blocked, size, c.queuedUpTo, now);
            match r.next {
              case None => r.after == OneShot(c, audience, blocked, now)
              case Some(next) =>
                && Unfinished(r.after) && r.after.queuedUpTo == next
                && OneShot(r.after, audience, blocked, now) == OneShot(c, audience, blocked, now)
            }
  {
    SliceSplitsPass(c.mails, audience, blocked, size, c.queuedUpTo);
  }

  /** A chunk that is not the last one moves the cursor past somebody. */
  lemma ChunkMakesProgress(audience: set<AccountId>, cursor: nat, size: nat)
    requires 0 < size && |Slice(audience, cursor, size)| == size
    ensures cursor < EndOf(Slice(audience, cursor, size), cursor)
    ensures After(audience, EndOf(Slice(audience, cursor, size), cursor)) < After(audience, cursor)
  {
  }

  /** With a chunk size of zero a chunk of an unfinished campaign hands on the
      cursor it was given and changes nothing else: the chain never ends. Above
      zero it does (`QueueMail` terminates). */
  lemma ZeroSizeNeverEnds(c: Standing, audience: set<AccountId>, blocked: set<AccountId>, now: int)
    requires Unfinished(c)
    ensures var r := Chunk(c, audience, blocked, 0, c.queuedUpTo, now);
            r.next == Some(c.queuedUpTo) && r.queued == 0 && r.after == c.(status := Sending)
  {
  }

  lemma CoveredThenRest(audience: set<AccountId>, cursor: nat)
    ensures InOrder(audience) == InOrder(audience - After(audience, cursor)) + InOrder(After(audience, cursor))
  {
    var after := InOrder(After(audience, cursor));
    var before := InOrder(audience - After(audience, cursor));
    forall i, j | 0 <= i < |before| && 0 <= j < |after| ensures before[i] < after[j] {
      assert before[i] in before && after[j] in after;
    }
    assert forall u: AccountId :: u in before + after <==> u in before || u in after;
    AscendingIsUnique(before + after, InOrder(audience));
  }

  /** Where the cursor stands does not matter as long as it is covered: the
      outcome is one pass over the whole audience, with one new mail for each
      account that had none. */
  lemma {:induction false} OneShotFromCovered(c: Standing, audience: set<AccountId>, blocked: set<AccountId>, now: int)
    requires Unfinished(c)
    requires forall u :: u in audience && u <= c.queuedUpTo ==> u in Recipients(c.mails)
    ensures OneShot(c, audience, blocked, now).mails == SinglePass(c.mails, InOrder(audience), blocked)
    ensures Recipients(OneShot(c, audience, blocked, now).mails) == Recipients(c.mails) + audience
    ensures |OneShot(c, audience, blocked, now).mails| == |c.mails| + |audience - Recipients(c.mails)|
  {
    var after := InOrder(After(audience, c.queuedUpTo));
    var before := InOrder(audience - After(audience, c.queuedUpTo));
    var whole := InOrder(audience);
    CoveredThenRest(audience, c.queuedUpTo);
    PassAppends(c.mails, before, after, blocked);
    PassSpec(c.mails, before, blocked);
    assert Members(whole) == audience;
    PassSpec(c.mails, whole, blocked);
    PassCount(c.mails, whole, blocked);
  }

  method Note(problems: seq<Problem>, p: Problem, hinders: bool) returns (more: seq<Problem>)
    ensures forall q :: q in more <==> q in problems || (hinders && q == p)
  {
    more := if hinders then problems + [p] else problems;
  }

  method PlanProblems(found: seq<Problem>, plan: Plan) returns (problems: seq<Problem>)
    requires plan.Plan?
    ensures forall p :: p in problems <==> p in found || (p != NotDraft && Hinders(p, Draft, plan))
  {
    problems := Note(found, NotOptional, !plan.canOptOut);
    problems := Note(problems, NoTemplate, !plan.template);
    if plan.segment == None {
      problems := Note(problems, NoSegment, true);
    } else {
      problems := Note(problems, MatchesNobody, !plan.matchesAnybody);
    }
  }

  method DojoProblems(found: seq<Problem>, plan: Plan, draft: bool) returns (problems: seq<Problem>)
    requires plan.DojoPlan?
    ensures forall p :: p in problems <==> p in found || (p != NotDraft && Hinders(p, if draft then Draft else Queued, plan))
  {
    problems := Note(found, WrongKind, !plan.fits);
    problems := AudienceProblems(problems, plan);
    problems := Note(problems, NothingWritten, !plan.written);
    problems := Note(problems, NoReplyAddress, !plan.replyAddress);
    problems := Note(problems, TooMany, plan.toFamilies && draft && plan.limit <= plan.launches);
    problems := Note(problems, NoTemplate, !plan.template);
  }

  method AudienceProblems(found: seq<Problem>, plan: Plan) returns (problems: seq<Problem>)
    requires plan.DojoPlan?
    ensures forall p :: p in problems <==> p in found || (p in [BadAudience, WantedByNobody] && Hinders(p, Draft, plan))
  {
    if plan.definition == None {
      problems := Note(found, BadAudience, true);
    } else {
      problems := Note(found, WantedByNobody, !plan.wanted);
    }
  }

  /** The loop of a chunk has dealt with the first `i` accounts. */
  ghost predicate SentSoFar(start: seq<Mail>, accounts: seq<AccountId>, blocked: set<AccountId>, i: nat, mails: seq<Mail>, queued: nat) {
    && i <= |accounts|
    && mails == SinglePass(start, accounts[..i], blocked)
    && |mails| == |start| + queued
  }

  lemma SentNobody(start: seq<Mail>, accounts: seq<AccountId>, blocked: set<AccountId>)
    ensures SentSoFar(start, accounts, blocked, 0, start, 0)
  {
  }

  /** The next account gets a mail exactly if it had none at the start, and then it is
      one more. */
  lemma SentOneMore(start: seq<Mail>, accounts: seq<AccountId>, blocked: set<AccountId>, i: nat, mails: seq<Mail>, queued: nat)
    requires Ascending(accounts) && i < |accounts| && SentSoFar(start, accounts, blocked, i, mails, queued)
    ensures var u := accounts[i];
            && u in accounts && (u in Recipients(mails) <==> u in Recipients(start))
            && SentSoFar(start, accounts, blocked, i + 1, SendTo(mails, u, u in blocked),
                         if u in Recipients(start) then queued else queued + 1)
  {
    OneFurther(start, accounts, i, blocked);
    PassSpec(start, accounts[..i], blocked);
  }

  class Campaign {
    var status: Status
    var scheduledAt: Option<int>
    var launchedAt: Option<int>
    var launchedBy: Option<AccountId>
    var snapshot: Option<Definition>
    var queuedUpTo: nat
    var queuedAt: Option<int>
    var mails: seq<Mail>
    var locked: bool

    function Now(): Standing
      reads this
    {
      Standing(status, queuedUpTo, queuedAt, mails)
    }

    /** What queuing does not touch. */
    function Rest(): (Option<int>, Option<int>, Option<AccountId>, Option<Definition>, bool)
      reads this
    {
      (scheduledAt, launchedAt, launchedBy, snapshot, locked)
    }

    constructor (scheduledAt: Option<int>)
      ensures Now() == Standing(Draft, 0, None, []) && !locked
      ensures this.scheduledAt == scheduledAt && launchedAt == None && launchedBy == None && snapshot == None
    {
      this.status, this.scheduledAt, this.launchedAt, this.launchedBy, this.snapshot := Draft, scheduledAt, None, None, None;
      this.queuedUpTo, this.queuedAt, this.mails, this.locked := 0, None, [], false;
    }

    /** What stops the launch, in the order in which it is listed. */
    method LaunchProblems(plan: Plan) returns (problems: seq<Problem>)
      ensures forall p :: p in problems <==> Hinders(p, status, plan)
    {
      problems := Note([], NotDraft, status != Draft);
      match plan {
        case Plan(_, _, _, _) => problems := PlanProblems(problems, plan);
        case DojoPlan(_, _, _, _, _, _, _, _, _) => problems := DojoProblems(problems, plan, status == Draft);
      }
    }

    /** Launches exactly what nothing hinders; the audience's definition is frozen. */
    method Launch(plan: Plan, user: AccountId, now: int) returns (problems: seq<Problem>)
      modifies this`status, this`launchedAt, this`launchedBy, this`snapshot
      ensures forall p :: p in problems <==> Hinders(p, old(status), plan)
      ensures problems != [] ==>
                status == old(status) && launchedAt == old(launchedAt) && launchedBy == old(launchedBy) && snapshot == old(snapshot)
      ensures problems == [] ==>
                old(status) == Draft && status == Queued && launchedAt == Some(now) && launchedBy == Some(user) &&
                snapshot == Target(plan) && snapshot.Some?
    {
      problems := LaunchProblems(plan);
      if problems != [] {
        assert problems[0] in problems;
        return;
      }
      assert !Hinders(NotDraft, status, plan) && !Hinders(NoSegment, status, plan) && !Hinders(BadAudience, status, plan);
      snapshot := Target(plan);
      status := Queued;
      launchedAt, launchedBy := Some(now), Some(user);
    }

    /** A cancel stops any campaign that has not ended and withdraws what still
        waits; a mail that left `Pending` stays as it is. */
    method Cancel() returns (ok: bool)
      modifies this`status, this`mails
      ensures ok == (old(status) in {Draft, Queued, Sending})
      ensures !ok ==> Now() == old(Now())
      ensures ok ==> Now() == old(Now()).(status := Cancelled, mails := Withdraw(old(mails)))
      ensures ok ==> forall i :: 0 <= i < |mails| ==> mails[i].state != Pending
      ensures forall i :: 0 <= i < |mails| && old(mails)[i].state != Pending ==> mails[i] == old(mails)[i]
    {
      ok := status == Draft || status == Queued || status == Sending;
      if ok {
        WithdrawKeepsRecipients(mails);
        status := Cancelled;
        mails := Withdraw(mails);
      }
    }

    /** mailing.services.send under the account's key. */
    method Send(u: AccountId, blocked: bool)
      modifies this`mails
      ensures mails == SendTo(old(mails), u, blocked)
    {
      if u !in Recipients(mails) {
        mails := mails + [Fresh(u, blocked)];
      }
    }

    /** The loop of a chunk: a mail to each of `accounts` whose key was not in use when
        the chunk looked. */
    method SendMissing(accounts: seq<AccountId>, done: set<AccountId>, blocked: set<AccountId>) returns (queued: nat)
      requires Ascending(accounts)
      requires forall u :: u in accounts ==> (u in done <==> u in Recipients(mails))
      modifies this`mails
      ensures mails == SinglePass(old(mails), accounts, blocked)
      ensures |mails| == |old(mails)| + queued
    {
      queued := 0;
      var i := 0;
      SentNobody(mails, accounts, blocked);
      while i < |accounts|
        invariant 0 <= i <= |accounts|
        invariant SentSoFar(old(mails), accounts, blocked, i, mails, queued)
      {
        var u := accounts[i];
        SentOneMore(old(mails), accounts, blocked, i, mails, queued);
        if u !in done {
          Send(u, u in blocked);
          queued := queued + 1;
        }
        i := i + 1;
      }
      assert accounts[..i] == accounts;
    }

    /** `cancelAfter` is how many accounts the chunk has dealt with when somebody
        cancels the campaign, if somebody does. */
    method QueueChunk(audience: set<AccountId>, blocked: set<AccountId>, size: nat, cursor: nat, cancelAfter: Option<nat>, now: int)
      returns (queued: nat, next: Option<nat>)
      modifies this
      ensures Rest() == old(Rest())
      ensures old(locked) ==> Now() == old(Now()) && queued == 0 && next == None
      ensures !old(locked) && !(cancelAfter.Some? && Takes(old(Now()), cursor)) ==>
                ChunkResult(Now(), queued, next) == Chunk(old(Now()), audience, blocked, size, cursor, now)
      ensures !old(locked) && cancelAfter.Some? && Takes(old(Now()), cursor) ==>
                ChunkResult(Now(), queued, next) == CutShort(old(Now()), audience, blocked, size, cursor)
    {
      if locked {
        return 0, None;
      }
      locked := true;
      if status == Queued {
        status := Sending;
      }
      if status != Sending || queuedAt != None || queuedUpTo != cursor {
        locked := false;
        return 0, None;
      }
      var accounts := Slice(audience, cursor, size);
      queued := SendAll(accounts, blocked, cancelAfter);
      var finished := |accounts| < size;
      var end := EndOf(accounts, cursor);
      if status == Sending {
        queuedUpTo := end;
        if finished {
          queuedAt := Some(now);
        }
        next := if finished then None else Some(end);
      } else {
        mails := Withdraw(mails);
        next := None;
      }
      locked := false;
    }

    /** The loop of a chunk with a cancel somewhere in it, or none. */
    method SendAll(accounts: seq<AccountId>, blocked: set<AccountId>, cancelAfter: Option<nat>) returns (queued: nat)
      requires Ascending(accounts) && status == Sending
      modifies this`mails, this`status
      ensures status == if cancelAfter.Some? then Cancelled else Sending
      ensures |mails| == |old(mails)| + queued
      ensures |mails| == |SinglePass(old(mails), accounts, blocked)|
      ensures cancelAfter == None ==> mails == SinglePass(old(mails), accounts, blocked)
      ensures Withdraw(mails) == Withdraw(SinglePass(old(mails), accounts, blocked))
    {
      var done := Recipients(mails);
      var k := if cancelAfter == None then |accounts| else Min(cancelAfter.value, |accounts|);
      assert accounts == accounts[..k] + accounts[k..];
      queued := SendMissing(accounts[..k], done, blocked);
      PassSpec(old(mails), accounts[..k], blocked);
      ghost var halfway := mails;
      if cancelAfter.Some? {
        var ok := Cancel();
      }
      WithdrawKeepsRecipients(halfway);
      forall u | u in accounts[k..] ensures u in done <==> u in Recipients(mails) {
        assert u !in Members(accounts[..k]);
      }
      var more := SendMissing(accounts[k..], done, blocked);
      queued := queued + more;
      WithdrawMidway(old(mails), accounts[..k], accounts[k..], blocked);
      PassAppends(old(mails), accounts[..k], accounts[k..], blocked);
      assert |mails| == |Withdraw(mails)|;
    }

    /** Chunk after chunk until there is no next cursor: the outcome is the one-shot
        pass, whatever the chunk size, and `total` counts the new mails. */
    method QueueMail(audience: set<AccountId>, blocked: set<AccountId>, size: nat, now: int) returns (total: nat)
      requires 0 < size
      modifies this
      ensures Rest() == old(Rest())
      ensures old(locked) ==> Now() == old(Now())
      ensures !old(locked) && Unfinished(old(Now())) ==> Now() == OneShot(old(Now()), audience, blocked, now)
      ensures !Unfinished(old(Now())) ==>
                mails == old(mails) && queuedUpTo == old(queuedUpTo) && queuedAt == old(queuedAt)
      ensures |mails| == |old(mails)| + total
    {
      total := 0;
      var cursor := Some(queuedUpTo);
      ghost var active := !locked && Unfinished(Now());
      while cursor != None
        invariant Rest() == old(Rest())
        invariant |mails| == |old(mails)| + total
        invariant old(locked) ==> Now() == old(Now())
        invariant !Unfinished(old(Now())) ==>
                    mails == old(mails) && queuedUpTo == old(queuedUpTo) && queuedAt == old(queuedAt)
        invariant !Unfinished(old(Now())) && cursor != None ==> !Unfinished(Now())
        invariant cursor != None ==> cursor == Some(queuedUpTo)
        invariant active && cursor != None ==>
                    Unfinished(Now()) && OneShot(Now(), audience, blocked, now) == OneShot(old(Now()), audience, blocked, now)
        invariant active && cursor == None ==> Now() == OneShot(old(Now()), audience, blocked, now)
        decreases cursor != None, if cursor == None then {} else After(audience, cursor.value)
      {
        if active {
          ChunkThenRest(Now(), audience, blocked, size, now);
        }
        if |Slice(audience, cursor.value, size)| == size {
          ChunkMakesProgress(audience, cursor.value, size);
        }
        var queued;
        queued, cursor := QueueChunk(audience, blocked, size, cursor.value, None, now);
        total := total + queued;
      }
    }
  }

  /** The queuing task: one chunk, and the next one as a new task behind whatever
      waits by then. `waiting` holds the cursors of the campaign's waiting tasks. */
  method LaunchCampaign(c: Campaign, waiting: seq<nat>, audience: set<AccountId>, blocked: set<AccountId>,
                        size: nat, cursor: nat, now: int)
    returns (queued: nat, waits: seq<nat>)
    requires !c.locked
    modifies c
    ensures !c.locked
    ensures var r := Chunk(old(c.Now()), audience, blocked, size, cursor, now);
            && c.Now() == r.after && queued == r.queued
            && waits == waiting + (if r.next == None then [] else [r.next.value])
  {
    var next;
    queued, next := c.QueueChunk(audience, blocked, size, cursor, None, now);
    waits := if next == None then waiting else waiting + [next.value];
  }

  /** One task's chunk: the last one, one of several, or of no effect. */
  lemma TaskTurn(c: Standing, audience: set<AccountId>, blocked: set<AccountId>, size: nat, cursor: nat, now: int)
    requires 0 < size
    ensures var r := Chunk(c, audience, blocked, size, cursor, now);
            if !Takes(c, cursor) then
              && r.next == None && (Unfinished(r.after) <==> Unfinished(c))
              && r.after.mails == c.mails && r.after.queuedUpTo == c.queuedUpTo && r.after.queuedAt == c.queuedAt
            else if r.next == None then
              r.after == OneShot(c, audience, blocked, now)
            else
              && Unfinished(r.after) && r.after.queuedUpTo == r.next.value
              && OneShot(r.after, audience, blocked, now) == OneShot(c, audience, blocked, now)
              && After(audience, r.after.queuedUpTo) < After(audience, c.queuedUpTo)
  {
    if Takes(c, cursor) {
      ChunkThenRest(c, audience, blocked, size, now);
      if |Slice(audience, cursor, size)| == size { ChunkMakesProgress(audience, cursor, size); }
    }
  }

  /** However many stale or repeated tasks wait, in whatever order, working them
      off first come first served ends, and ends with the one-shot pass when one
      of them had the campaign's own cursor; otherwise nothing is queued. */
  method WorkOff(c: Campaign, tasks: seq<nat>, audience: set<AccountId>, blocked: set<AccountId>, size: nat, now: int)
    requires !c.locked && 0 < size
    modifies c
    ensures Unfinished(old(c.Now())) && old(c.queuedUpTo) in tasks ==> c.Now() == OneShot(old(c.Now()), audience, blocked, now)
    ensures !Unfinished(old(c.Now())) || old(c.queuedUpTo) !in tasks ==>
              c.mails == old(c.mails) && c.queuedUpTo == old(c.queuedUpTo) && c.queuedAt == old(c.queuedAt)
  {
    var waiting := tasks;
    ghost var active := Unfinished(c.Now()) && c.queuedUpTo in tasks;
    while waiting != []
      invariant !c.locked
      invariant !active ==> c.mails == old(c.mails) && c.queuedUpTo == old(c.queuedUpTo) && c.queuedAt == old(c.queuedAt)
      invariant !active ==> !Unfinished(c.Now()) || c.queuedUpTo !in waiting
      invariant active && Unfinished(c.Now()) ==>
                  && c.queuedUpTo in waiting
                  && OneShot(c.Now(), audience, blocked, now) == OneShot(old(c.Now()), audience, blocked, now)
      invariant active && !Unfinished(c.Now()) ==> c.Now() == OneShot(old(c.Now()), audience, blocked, now)
      decreases if Unfinished(c.Now()) then 1 else 0, After(audience, c.queuedUpTo), |waiting|
    {
      var cursor, rest := waiting[0], waiting[1..];
      assert waiting == [cursor] + rest;
      TaskTurn(c.Now(), audience, blocked, size, cursor, now);
      var queued;
      queued, waiting := LaunchCampaign(c, rest, audience, blocked, size, cursor, now);
    }
  }

  ghost predicate Distinct(campaigns: seq<Campaign>) {
    forall i, j :: 0 <= i < j < |campaigns| ==> campaigns[i] != campaigns[j]
  }

  /** Which of the three queries finds the campaign due, if one does: launched to go at
      once, launched with its time come, or sending with mail left to queue. */
  function DueAs(c: Campaign, now: int): Option<nat>
    reads c
  {
    if c.status == Queued && c.scheduledAt == None then Some(0)
    else if c.status == Queued && c.scheduledAt.value <= now then Some(1)
    else if c.status == Sending && c.queuedAt == None then Some(2)
    else None
  }

  /** All queued, and no mail of its own still to go out. */
  predicate AllOut(c: Campaign)
    reads c
  {
    c.status == Sending && c.queuedAt != None && StillOpen(c.mails) == {}
  }

  /** What makes a campaign due, in the database's terms. */
  predicate IsDue(status: Status, scheduledAt: Option<int>, queuedAt: Option<int>, now: int) {
    || (status == Queued && (scheduledAt.Some? ==> scheduledAt.value <= now))
    || (status == Sending && !queuedAt.Some?)
  }

  /** The queries find exactly the campaigns that are due: those to be sent at once, the
      scheduled ones, and those that are being sent. */
  lemma DueExactly(c: Campaign, now: int)
    ensures DueAs(c, now).Some? <==> IsDue(c.status, c.scheduledAt, c.queuedAt, now)
    ensures DueAs(c, now) == Some(0) <==> c.status == Queued && !c.scheduledAt.Some?
    ensures DueAs(c, now) == Some(1) <==> c.status == Queued && c.scheduledAt.Some? && c.scheduledAt.value <= now
    ensures DueAs(c, now) == Some(2) <==> c.status == Sending && !c.queuedAt.Some?
  {
  }

  /** A scheduled campaign is not due before its time, is due at it, and what is due once
      is due, and found by the same query, at every later moment at which it stands as
      it did. */
  lemma DueFromItsTime(c: Campaign, now: int, later: int)
    requires now <= later
    ensures DueAs(c, now).Some? ==> DueAs(c, later) == DueAs(c, now)
    ensures c.status == Queued && c.scheduledAt.Some? && now < c.scheduledAt.value ==> DueAs(c, now) == None
    ensures c.status == Queued && c.scheduledAt.Some? ==> DueAs(c, c.scheduledAt.value) == Some(1)
  {
  }

  /** For each campaign the query that finds it due, and its cursor. */
  function Dues(campaigns: seq<Campaign>, now: int): (dues: seq<(Option<nat>, nat)>)
    reads campaigns
    ensures |dues| == |campaigns|
    ensures forall k :: 0 <= k < |campaigns| ==> dues[k] == (DueAs(campaigns[k], now), campaigns[k].queuedUpTo)
  {
    if campaigns == [] then []
    else
      var last := campaigns[|campaigns| - 1];
      Dues(campaigns[..|campaigns| - 1], now) + [(DueAs(last, now), last.queuedUpTo)]
  }

  ghost predicate Has(due: seq<(nat, nat)>, k: nat) {
    exists i :: 0 <= i < |due| && due[i].0 == k
  }

  /** Listed by query, and by place within one. */
  predicate Earlier(dues: seq<(Option<nat>, nat)>, k: nat, m: nat) {
    && k < |dues| && m < |dues| && dues[k].0.Some? && dues[m].0.Some?
    && (dues[k].0.value < dues[m].0.value || (dues[k].0 == dues[m].0 && k < m))
  }

  /** The places and cursors that the queries from `first` up to `last` list together. */
  ghost predicate Lists(dues: seq<(Option<nat>, nat)>, first: nat, last: nat, due: seq<(nat, nat)>) {
    && (forall d :: d in due ==> d.0 < |dues| && Among(dues[d.0].0, first, last) && d.1 == dues[d.0].1)
    && (forall k :: 0 <= k < |dues| && Among(dues[k].0, first, last) ==> Has(due, k))
    && (forall i, j :: 0 <= i < j < |due| ==> Earlier(dues, due[i].0, due[j].0))
  }

  predicate Among(query: Option<nat>, first: nat, last: nat) {
    query.Some? && first <= query.value < last
  }

  lemma HasMore(due: seq<(nat, nat)>, more: seq<(nat, nat)>, k: nat)
    ensures Has(due, k) || Has(more, k) ==> Has(due + more, k)
  {
    if i :| 0 <= i < |due| && due[i].0 == k { assert (due + more)[i].0 == k; }
    if i :| 0 <= i < |more| && more[i].0 == k { assert (due + more)[|due| + i].0 == k; }
  }

  /** One query's list behind that of the queries before it. */
  lemma ListsMore(dues: seq<(Option<nat>, nat)>, n: nat, due: seq<(nat, nat)>, more: seq<(nat, nat)>)
    requires Lists(dues, 0, n, due) && Lists(dues, n, n + 1, more)
    ensures Lists(dues, 0, n + 1, due + more)
  {
    var all := due + more;
    forall k | 0 <= k < |dues| && Among(dues[k].0, 0, n + 1) ensures Has(all, k) {
      HasMore(due, more, k);
      assert Among(dues[k].0, 0, n) || Among(dues[k].0, n, n + 1);
    }
    forall i, j | 0 <= i < j < |all| ensures Earlier(dues, all[i].0, all[j].0) {
      assert i < |due| ==> all[i] in due;
      assert j >= |due| ==> all[j] in more;
    }
  }

  lemma ListsExactly(dues: seq<(Option<nat>, nat)>, due: seq<(nat, nat)>, k: nat)
    requires Lists(dues, 0, 3, due) && k < |dues| && (dues[k].0.Some? ==> dues[k].0.value < 3)
    ensures Has(due, k) <==> dues[k].0.Some?
  {
    if i :| 0 <= i < |due| && due[i].0 == k { assert due[i] in due; }
  }

  /** What one query finds among the first `k` campaigns. */
  ghost predicate FoundTo(dues: seq<(Option<nat>, nat)>, query: nat, k: nat, found: seq<(nat, nat)>) {
    && k <= |dues|
    && (forall d :: d in found ==> d.0 < k && dues[d.0].0 == Some(query) && d.1 == dues[d.0].1)
    && (forall m :: 0 <= m < k && dues[m].0 == Some(query) ==> Has(found, m))
    && (forall i, j :: 0 <= i < j < |found| ==> found[i].0 < found[j].0)
  }

  lemma FoundHas(dues: seq<(Option<nat>, nat)>, query: nat, k: nat, found: seq<(nat, nat)>, cursor: nat)
    requires k < |dues| && FoundTo(dues, query, k, found)
    ensures forall m :: 0 <= m < k + 1 && dues[m].0 == Some(query) ==> Has(found + [(k, cursor)], m)
  {
    forall m | 0 <= m < k + 1 && dues[m].0 == Some(query) ensures Has(found + [(k, cursor)], m) {
      assert [(k, cursor)][0].0 == k;
      HasMore(found, [(k, cursor)], m);
    }
  }

  lemma FoundAscends(found: seq<(nat, nat)>, k: nat, cursor: nat)
    requires forall d :: d in found ==> d.0 < k
    requires forall i, j :: 0 <= i < j < |found| ==> found[i].0 < found[j].0
    ensures var more := found + [(k, cursor)]; forall i, j :: 0 <= i < j < |more| ==> more[i].0 < more[j].0
  {
    assert forall i :: 0 <= i < |found| ==> found[i] in found;
  }

  lemma FoundOne(dues: seq<(Option<nat>, nat)>, query: nat, k: nat, found: seq<(nat, nat)>)
    requires k < |dues| && dues[k].0 == Some(query) && FoundTo(dues, query, k, found)
    ensures FoundTo(dues, query, k + 1, found + [(k, dues[k].1)])
  {
    FoundHas(dues, query, k, found, dues[k].1);
    FoundAscends(found, k, dues[k].1);
    var more := found + [(k, dues[k].1)];
    forall d | d in more ensures d.0 < k + 1 && dues[d.0].0 == Some(query) && d.1 == dues[d.0].1 {
      assert d in found || d == (k, dues[k].1);
    }
  }

  lemma FoundNone(dues: seq<(Option<nat>, nat)>, query: nat, k: nat, found: seq<(nat, nat)>)
    requires k < |dues| && dues[k].0 != Some(query) && FoundTo(dues, query, k, found)
    ensures FoundTo(dues, query, k + 1, found)
  {
  }

  lemma FoundAll(dues: seq<(Option<nat>, nat)>, query: nat, found: seq<(nat, nat)>)
    requires FoundTo(dues, query, |dues|, found)
    ensures Lists(dues, query, query + 1, found)
  {
    assert forall i :: 0 <= i < |found| ==> found[i] in found;
  }

  method Find(campaigns: seq<Campaign>, query: nat, now: int) returns (found: seq<(nat, nat)>)
    ensures Lists(Dues(campaigns, now), query, query + 1, found)
  {
    ghost var dues := Dues(campaigns, now);
    found := [];
    var k: nat := 0;
    while k < |campaigns|
      invariant k <= |campaigns| && FoundTo(dues, query, k, found)
    {
      if DueAs(campaigns[k], now) == Some(query) {
        FoundOne(dues, query, k, found);
        found := found + [(k, campaigns[k].queuedUpTo)];
      } else {
        FoundNone(dues, query, k, found);
      }
      k := k + 1;
    }
    FoundAll(dues, query, found);
  }

  method FindLists(campaigns: seq<Campaign>, now: int) returns (due: seq<(nat, nat)>)
    ensures Lists(Dues(campaigns, now), 0, 3, due)
  {
    ghost var dues := Dues(campaigns, now);
    due := Find(campaigns, 0, now);
    var more := Find(campaigns, 1, now);
    ListsMore(dues, 1, due, more);
    due := due + more;
    more := Find(campaigns, 2, now);
    ListsMore(dues, 2, due, more);
    due := due + more;
  }

  lemma DueListed(campaigns: seq<Campaign>, now: int, due: seq<(nat, nat)>, k: nat)
    requires k < |campaigns| && Lists(Dues(campaigns, now), 0, 3, due)
    ensures Has(due, k) <==> IsDue(campaigns[k].status, campaigns[k].scheduledAt, campaigns[k].queuedAt, now)
  {
    DueExactly(campaigns[k], now);
    ListsExactly(Dues(campaigns, now), due, k);
  }

  /** The three queries together: exactly the due campaigns, by query and then by row. */
  method FindDue(campaigns: seq<Campaign>, now: int) returns (due: seq<(nat, nat)>)
    ensures Lists(Dues(campaigns, now), 0, 3, due)
    ensures forall k :: 0 <= k < |campaigns| ==>
              (Has(due, k) <==> IsDue(campaigns[k].status, campaigns[k].scheduledAt, campaigns[k].queuedAt, now))
  {
    due := FindLists(campaigns, now);
    forall k | 0 <= k < |campaigns|
      ensures Has(due, k) <==> IsDue(campaigns[k].status, campaigns[k].scheduledAt, campaigns[k].queuedAt, now)
    {
      DueListed(campaigns, now, due, k);
    }
  }

  /** No mail of the campaign's own waits or is being sent. */
  predicate Settled(mails: seq<Mail>) {
    forall i :: 0 <= i < |mails| && !mails[i].isTest ==> mails[i].state != Pending && mails[i].state != Claimed
  }

  lemma SettledExactly(mails: seq<Mail>)
    ensures StillOpen(mails) == {} <==> Settled(mails)
  {
    if StillOpen(mails) == {} {
      forall i | 0 <= i < |mails| && !mails[i].isTest ensures mails[i].state != Pending && mails[i].state != Claimed {
        assert i !in StillOpen(mails);
      }
    }
  }

  /** The every-minute job: hands exactly the due campaigns to the queuing task,
      each once and with its cursor, in the order of the three queries, and completes
      exactly those that are all out. A campaign is named by its place in `campaigns`. */
  method LaunchDue(campaigns: seq<Campaign>, now: int) returns (due: seq<(nat, nat)>)
    requires Distinct(campaigns)
    modifies set c | c in campaigns
    ensures forall c :: c in campaigns ==>
              && c.status == (if old(AllOut(c)) then Completed else old(c.status))
              && c.Now() == old(c.Now()).(status := c.status) && c.Rest() == old(c.Rest())
    ensures Lists(old(Dues(campaigns, now)), 0, 3, due)
    ensures forall k :: 0 <= k < |campaigns| ==>
              (Has(due, k) <==> old(IsDue(campaigns[k].status, campaigns[k].scheduledAt, campaigns[k].queuedAt, now)))
    ensures forall c :: c in campaigns ==>
              (c.status == Completed <==>
                old(c.status) == Completed || (old(c.status) == Sending && old(c.queuedAt).Some? && old(Settled(c.mails))))
  {
    due := FindDue(campaigns, now);
    var k := 0;
    while k < |campaigns|
      invariant 0 <= k <= |campaigns|
      invariant forall m :: k <= m < |campaigns| ==> unchanged(campaigns[m])
      invariant forall m :: 0 <= m < k ==>
                  && campaigns[m].status == (if old(AllOut(campaigns[m])) then Completed else old(campaigns[m].status))
                  && campaigns[m].Now() == old(campaigns[m].Now()).(status := campaigns[m].status)
                  && campaigns[m].Rest() == old(campaigns[m].Rest())
    {
      if AllOut(campaigns[k]) {
        campaigns[k].status := Completed;
      }
      k := k + 1;
    }
    forall c | c in campaigns ensures old(StillOpen(c.mails) == {}) <==> old(Settled(c.mails)) {
      SettledExactly(old(c.mails));
    }
  }
}

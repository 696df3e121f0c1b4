/** Particular runs of CampaignProtocol: a worker left alone does what
    CampaignQueue.Chunk says, and for every exception that the theorems name there
    is a run that needs it. */
module CampaignRuns {
  import opened Basics
  import opened Audience
  import opened CampaignMail
  import opened CampaignProtocol
  import opened CampaignTheorems
  import Queue = CampaignQueue

  /** There is a run from `s` to `t`. */
  ghost predicate Leads(s: State, t: State) {
    exists steps :: Possible(s, steps) && Exec(s, steps) == t
  }

  lemma One(s: State, step: Step)
    requires Enabled(s, step)
    ensures Leads(s, Apply(s, step))
  {
    var none: seq<Step> := [];
    assert [step][..0] == none;
    assert Possible(s, none) && Exec(s, none) == s;
    assert Possible(s, [step]) && Exec(s, [step]) == Apply(s, step);
  }

  lemma {:induction false} Joined(s: State, a: seq<Step>, b: seq<Step>)
    requires Possible(s, a) && Possible(Exec(s, a), b)
    ensures Possible(s, a + b) && Exec(s, a + b) == Exec(Exec(s, a), b)
    decreases |b|
  {
    if b == [] {
      assert a + b == a;
    } else {
      var c, last := b[..|b| - 1], b[|b| - 1];
      Joined(s, a, c);
      assert (a + b)[..|a + b| - 1] == a + c && (a + b)[|a + b| - 1] == last;
      assert Enabled(Exec(s, a + c), last);
    }
  }

  lemma Then(s: State, t: State, u: State)
    requires Leads(s, t) && Leads(t, u)
    ensures Leads(s, u)
  {
    var a :| Possible(s, a) && Exec(s, a) == t;
    var b :| Possible(t, b) && Exec(t, b) == u;
    Joined(s, a, b);
  }

  lemma Next(s: State, t: State, step: Step)
    requires Leads(s, t) && Enabled(t, step)
    ensures Leads(s, Apply(t, step))
  {
    One(t, step);
    Then(s, t, Apply(t, step));
  }

  lemma Two(s: State, x: Step, y: Step)
    requires Enabled(s, x) && Enabled(Apply(s, x), y)
    ensures Leads(s, Apply(Apply(s, x), y))
  {
    One(s, x);
    Next(s, Apply(s, x), y);
  }

  lemma Three(s: State, x: Step, y: Step, z: Step)
    requires Enabled(s, x) && Enabled(Apply(s, x), y) && Enabled(Apply(Apply(s, x), y), z)
    ensures Leads(s, Apply(Apply(Apply(s, x), y), z))
  {
    Two(s, x, y);
    Next(s, Apply(Apply(s, x), y), z);
  }

  // --------------------------------------------------- a worker left alone

  predicate Ready(s: State, w: nat) {
    && !s.locked && At(s, w).pc.Idle? && s.status in {Queued, Sending} && !s.queuedAt
  }

  /** The state in which worker `w` is about to send to the first account of its slice. */
  function Loaded(s: State, w: nat, size: nat): State {
    var slice := Slice(s.audience, s.queuedUpTo, size);
    Move(s, w, Queuing(s.queuedUpTo, size, slice, 0, Members(slice) * Recipients(s.mails)))
      .(locked := true, status := Sending)
  }

  /** The lock, the flip and the check let this worker in ... */
  lemma GetIn(s: State, w: nat)
    requires Ready(s, w)
    ensures var x, y, z := Acquire(w, s.queuedUpTo), Flip(w), Check(w);
            && Enabled(s, x) && Enabled(Apply(s, x), y) && Enabled(Apply(Apply(s, x), y), z)
            && Apply(Apply(Apply(s, x), y), z) == Move(s, w, Reading(s.queuedUpTo)).(locked := true, status := Sending)
  {
  }

  /** ... and it reads its slice and the keys in use. */
  lemma ReadIn(s: State, w: nat, size: nat)
    requires At(s, w).pc == Reading(s.queuedUpTo)
    ensures var x, y := Read(w, size), LookUp(w);
            && Enabled(s, x) && Enabled(Apply(s, x), y)
            && Apply(Apply(s, x), y) == Move(s, w, Queuing(s.queuedUpTo, size, Slice(s.audience, s.queuedUpTo, size), 0,
                 Members(Slice(s.audience, s.queuedUpTo, size)) * Recipients(s.mails)))
  {
  }

  function Entered(s: State, w: nat): State {
    Move(s, w, Reading(s.queuedUpTo)).(locked := true, status := Sending)
  }

  lemma Enters(s: State, w: nat)
    requires Ready(s, w)
    ensures Leads(s, Entered(s, w))
  {
    GetIn(s, w);
    Three(s, Acquire(w, s.queuedUpTo), Flip(w), Check(w));
  }

  lemma Reads(s: State, w: nat, size: nat)
    ensures Leads(Entered(s, w), Loaded(s, w, size))
  {
    var m := Entered(s, w);
    ReadIn(m, w, size);
    Two(m, Read(w, size), LookUp(w));
    assert m.workers[w := At(Loaded(s, w, size), w)] == Loaded(s, w, size).workers;
  }

  lemma Load(s: State, w: nat, size: nat)
    requires Ready(s, w)
    ensures Leads(s, Loaded(s, w, size))
  {
    Enters(s, w);
    Reads(s, w, size);
    Then(s, Entered(s, w), Loaded(s, w, size));
  }

  /** `t` is `s` with this worker at the end of its loop and its mail queued. */
  ghost predicate Looped(s: State, w: nat, blocked: set<AccountId>, t: State)
    requires At(s, w).pc.Queuing? && At(s, w).pc.k <= |At(s, w).pc.slice|
  {
    var pc := At(s, w).pc;
    && At(t, w).pc == pc.(k := |pc.slice|)
    && t.mails == SinglePass(s.mails, pc.slice[pc.k..], blocked)
    && t == s.(mails := t.mails, late := t.late, workers := s.workers[w := At(t, w)])
  }

  lemma PassFrom(mails: seq<Mail>, slice: seq<AccountId>, k: nat, blocked: set<AccountId>)
    requires k < |slice|
    ensures SinglePass(mails, slice[k..], blocked) ==
            SinglePass(SendTo(mails, slice[k], slice[k] in blocked), slice[k + 1..], blocked)
  {
  }

  lemma LoopedStep(s: State, w: nat, blocked: set<AccountId>, t: State)
    requires At(s, w).pc.Queuing? && At(s, w).pc.k < |At(s, w).pc.slice|
    requires At(s, w).pc.done <= Recipients(s.mails)
    ensures var step := SendNext(w, At(s, w).pc.slice[At(s, w).pc.k] in blocked);
            && Enabled(s, step)
            && At(Apply(s, step), w).pc == At(s, w).pc.(k := At(s, w).pc.k + 1)
            && Recipients(s.mails) <= Recipients(Apply(s, step).mails)
            && (Looped(Apply(s, step), w, blocked, t) ==> Looped(s, w, blocked, t))
  {
    var pc := At(s, w).pc;
    var m := Apply(s, SendNext(w, pc.slice[pc.k] in blocked));
    SendEffect(s, w, pc.slice[pc.k] in blocked);
    LoopedBack(s, m, w, blocked, t);
  }

  lemma LoopedBack(s: State, m: State, w: nat, blocked: set<AccountId>, t: State)
    requires At(s, w).pc.Queuing? && At(s, w).pc.k < |At(s, w).pc.slice|
    requires At(m, w).pc == At(s, w).pc.(k := At(s, w).pc.k + 1)
    requires var u := At(s, w).pc.slice[At(s, w).pc.k]; m.mails == SendTo(s.mails, u, u in blocked)
    requires m == s.(mails := m.mails, late := m.late, workers := s.workers[w := At(m, w)])
    ensures Looped(m, w, blocked, t) ==> Looped(s, w, blocked, t)
  {
  }

  lemma {:induction false} SendRest(s: State, w: nat, blocked: set<AccountId>)
    requires At(s, w).pc.Queuing? && At(s, w).pc.k <= |At(s, w).pc.slice|
    requires At(s, w).pc.done <= Recipients(s.mails)
    ensures exists t :: Leads(s, t) && Looped(s, w, blocked, t)
    decreases |At(s, w).pc.slice| - At(s, w).pc.k
  {
    var pc := At(s, w).pc;
    if pc.k == |pc.slice| {
      var none: seq<Step> := [];
      assert Possible(s, none) && Exec(s, none) == s;
      assert s.workers == s.workers[w := At(s, w)];
      assert pc.slice[pc.k..] == [];
      assert Leads(s, s) && Looped(s, w, blocked, s);
    } else {
      var step := SendNext(w, pc.slice[pc.k] in blocked);
      LoopedStep(s, w, blocked, s);
      SendRest(Apply(s, step), w, blocked);
      var t :| Leads(Apply(s, step), t) && Looped(Apply(s, step), w, blocked, t);
      LoopedStep(s, w, blocked, t);
      One(s, step);
      Then(s, Apply(s, step), t);
    }
  }

  predicate Shows(s: State, c: Queue.Standing) {
    s.status == c.status && s.queuedUpTo == c.queuedUpTo && s.queuedAt == (c.queuedAt != None) && s.mails == c.mails
  }

  lemma WindUp(s: State, w: nat)
    requires At(s, w).pc.Queuing? && At(s, w).pc.k == |At(s, w).pc.slice| && s.status == Sending && !s.queuedAt
    ensures var pc := At(s, w).pc;
            && Enabled(s, Finish(w)) && Enabled(Apply(s, Finish(w)), Release(w))
            && Apply(Apply(s, Finish(w)), Release(w)) ==
                 s.(workers := s.workers[w := Worker(Idle, {})], locked := false,
                    queuedUpTo := EndOf(pc.slice, pc.cursor), queuedAt := |pc.slice| < pc.size)
  {
    var m := Apply(s, Finish(w));
    assert m.workers[w := Worker(Idle, {})] == s.workers[w := Worker(Idle, {})];
  }

  lemma AloneAfterLoop(s: State, w: nat, c: Queue.Standing, blocked: set<AccountId>, size: nat, now: int, b: State)
    requires Ready(s, w) && Shows(s, c) && Looped(Loaded(s, w, size), w, blocked, b)
    ensures At(b, w).pc.Queuing? && At(b, w).pc.k == |At(b, w).pc.slice| && b.status == Sending && !b.queuedAt
    ensures var pc := At(b, w).pc;
            var t := b.(workers := b.workers[w := Worker(Idle, {})], locked := false,
                        queuedUpTo := EndOf(pc.slice, pc.cursor), queuedAt := |pc.slice| < pc.size);
            && Shows(t, Queue.Chunk(c, s.audience, blocked, size, c.queuedUpTo, now).after)
            && t.workers == s.workers[w := Worker(Idle, {})]
            && t.audience == s.audience && t.steady == s.steady && t.ever == s.ever
  {
  }

  /** `t` is `s` with the campaign standing at `c`, the lock free and worker `w` done. */
  ghost predicate Left(s: State, w: nat, c: Queue.Standing, t: State) {
    && Shows(t, c) && !t.locked && t.workers == s.workers[w := Worker(Idle, {})]
    && t.audience == s.audience && t.steady == s.steady && t.ever == s.ever
  }

  /** A worker that nobody interrupts takes the campaign from one standing to the
      next exactly as the sequential chunk does, and leaves the lock free. */
  lemma ChunkAlone(s: State, w: nat, c: Queue.Standing, blocked: set<AccountId>, size: nat, now: int)
    requires Ready(s, w) && Shows(s, c)
    ensures exists t ::
              Leads(s, t) && Left(s, w, Queue.Chunk(c, s.audience, blocked, size, c.queuedUpTo, now).after, t)
  {
    Load(s, w, size);
    var a := Loaded(s, w, size);
    SendRest(a, w, blocked);
    var b :| Leads(a, b) && Looped(a, w, blocked, b);
    AloneAfterLoop(s, w, c, blocked, size, now, b);
    WindUp(b, w);
    Two(b, Finish(w), Release(w));
    Then(s, a, b);
    Then(s, b, Apply(Apply(b, Finish(w)), Release(w)));
  }

  /** The state in which worker `w` is about to check. */
  function AtCheck(s: State, w: nat, cursor: nat): State {
    Move(s, w, Checking(cursor)).(locked := true, status := if s.status == Queued then Sending else s.status)
  }

  lemma ComesToCheck(s: State, w: nat, cursor: nat)
    requires !s.locked && At(s, w).pc.Idle?
    ensures Enabled(s, Acquire(w, cursor)) && Enabled(Apply(s, Acquire(w, cursor)), Flip(w))
    ensures Apply(Apply(s, Acquire(w, cursor)), Flip(w)) == AtCheck(s, w, cursor)
  {
  }

  /** Past its check a worker is exactly in a campaign being sent, not all queued, and at
      the cursor it was given. */
  lemma CheckExactly(s: State, w: nat, cursor: nat, c: Queue.Standing)
    requires At(s, w).pc == Checking(cursor) && s.status != Queued && Shows(s, c)
    ensures Enabled(s, Check(w))
    ensures Apply(s, Check(w)) == Move(s, w, if Queue.Takes(c, cursor) then Reading(cursor) else Releasing)
  {
  }

  lemma Lets(s: State, w: nat)
    requires At(s, w).pc.Releasing?
    ensures Enabled(s, Release(w))
    ensures Apply(s, Release(w)) == s.(workers := s.workers[w := Worker(Idle, {})], locked := false)
  {
  }

  lemma ComesAway(s: State, w: nat, cursor: nat, c: Queue.Standing)
    requires !s.locked && At(s, w).pc.Idle? && Shows(s, c) && !Queue.Takes(c, cursor)
    ensures var m := AtCheck(s, w, cursor); Enabled(m, Check(w)) && Apply(m, Check(w)) == Move(m, w, Releasing)
  {
    var m := AtCheck(s, w, cursor);
    CheckExactly(m, w, cursor, c.(status := m.status));
  }

  /** And when the campaign is not at that cursor, not being sent, or all queued:
      the lock, the flip and the check are all that happens ... */
  lemma TurnedAway(s: State, w: nat, cursor: nat, c: Queue.Standing)
    requires !s.locked && At(s, w).pc.Idle? && Shows(s, c) && !Queue.Takes(c, cursor)
    ensures var m := AtCheck(s, w, cursor);
            && Leads(s, m) && Leads(m, m.(workers := s.workers[w := Worker(Idle, {})], locked := false))
            && Enabled(m, Check(w)) && At(Apply(m, Check(w)), w).pc == Releasing
  {
    ComesToCheck(s, w, cursor);
    Two(s, Acquire(w, cursor), Flip(w));
    ComesAway(s, w, cursor, c);
    var m := AtCheck(s, w, cursor);
    var n := Move(m, w, Releasing);
    Lets(n, w);
    Two(m, Check(w), Release(w));
    assert n.workers[w := Worker(Idle, {})] == s.workers[w := Worker(Idle, {})];
  }

  /** ... which is what the sequential chunk says. */
  lemma TurnedAwayIsChunk(s: State, w: nat, cursor: nat, c: Queue.Standing, blocked: set<AccountId>, size: nat, now: int)
    requires Shows(s, c) && !Queue.Takes(c, cursor)
    ensures Left(s, w, Queue.Chunk(c, s.audience, blocked, size, cursor, now).after,
                 AtCheck(s, w, cursor).(workers := s.workers[w := Worker(Idle, {})], locked := false))
  {
  }

  // --------------------------------------------- queuing can always be finished

  function Seen(s: State): Queue.Standing {
    Queue.Standing(s.status, s.queuedUpTo, None, s.mails)
  }

  /** `t` is `s` with its queuing done as by one pass. */
  ghost predicate Finished(s: State, t: State) {
    && t.queuedAt && t.audience == s.audience && t.steady == s.steady && t.ever == s.ever
    && (s.status in {Queued, Sending} && t.mails == Queue.OneShot(Seen(s), s.audience, {}, 0).mails)
  }

  /** Chunk after chunk, one worker alone does what the single pass does. */
  lemma {:induction false} ChunksFinish(s: State, w: nat, size: nat)
    requires Ready(s, w) && 0 < size
    ensures exists t :: Leads(s, t) && Finished(s, t)
    decreases After(s.audience, s.queuedUpTo)
  {
    ChunkAlone(s, w, Seen(s), {}, size, 0);
    var r := Queue.Chunk(Seen(s), s.audience, {}, size, s.queuedUpTo, 0);
    var t :| Leads(s, t) && Left(s, w, r.after, t);
    Queue.ChunkThenRest(Seen(s), s.audience, {}, size, 0);
    if r.next == None {
      assert Finished(s, t);
    } else {
      Queue.ChunkMakesProgress(s.audience, s.queuedUpTo, size);
      ChunksFinish(t, w, size);
      var u :| Leads(t, u) && Finished(t, u);
      FinishedToo(s, t, u, r.after);
      Then(s, t, u);
    }
  }

  lemma FinishedToo(s: State, t: State, u: State, c: Queue.Standing)
    requires s.status in {Queued, Sending} && Queue.Unfinished(c) && Shows(t, c) && Finished(t, u)
    requires t.audience == s.audience && t.steady == s.steady && t.ever == s.ever
    requires Queue.OneShot(c, s.audience, {}, 0) == Queue.OneShot(Seen(s), s.audience, {}, 0)
    ensures Finished(s, u)
  {
    assert Seen(t) == c;
  }

  lemma FreeWorker(s: State)
    ensures exists w: nat :: At(s, w).pc.Idle?
  {
    OutsideExists(s.workers.Keys);
    var w :| w !in s.workers.Keys;
    assert At(s, w).pc.Idle?;
  }

  /** However a run got there, with workers stuck, dead or overtaken and the lock held
      by nobody alive: from every launched campaign that is not all queued some run
      finishes the queuing, with one pass's mails and everyone steady mailed. */
  lemma {:induction false} QueuingCanFinish(start: set<AccountId>, s: State, size: nat)
    requires Leads(Start(start), s) && s.status in {Queued, Sending} && !s.queuedAt && 0 < size
    ensures exists t :: Leads(s, t) && Finished(s, t) && s.steady <= Recipients(t.mails)
  {
    var f := s;
    LeadsItself(s);
    if s.locked {
      Next(s, s, LockExpires);
      f := Apply(s, LockExpires);
    }
    FreeWorker(f);
    var w: nat :| At(f, w).pc.Idle?;
    ChunksFinish(f, w, size);
    var t :| Leads(f, t) && Finished(f, t);
    Then(s, f, t);
    Then(Start(start), s, t);
    var steps :| Possible(Start(start), steps) && Exec(Start(start), steps) == t;
    EveryoneIsMailed(start, steps);
    assert Finished(s, t);
  }

  lemma LeadsItself(s: State)
    ensures Leads(s, s)
  {
    var none: seq<Step> := [];
    assert Possible(s, none) && Exec(s, none) == s;
  }

  // ------------------------------------------- runs that need the exceptions

  lemma SliceOfOne(a: AccountId, cursor: nat, size: nat)
    requires cursor < a && 0 < size
    ensures Slice({a}, cursor, size) == [a]
  {
    assert After({a}, cursor) == {a};
    assert {a} - {a} == {};
    assert InOrder({a}) == [a] + InOrder({});
  }

  /** A launched campaign of one account whose only chunk is about to send. */
  function OneLoaded(): State {
    Loaded(Apply(Start({}), Launch({1})), 0, 2)
  }

  /** Nothing has been sent, put back or left so far. */
  predicate Untouched(s: State) {
    s.mails == [] && s.revived == s.lost == s.late == s.retried == {} && !s.queuedAt && !s.allOut && !s.overrun
  }

  lemma OneLoads()
    ensures Leads(Start({}), OneLoaded())
    ensures OneLoaded().workers == map[0 := Worker(Queuing(0, 2, [1], 0, {}), {})]
    ensures Untouched(OneLoaded()) && OneLoaded().status == Sending
  {
    var s := Apply(Start({}), Launch({1}));
    One(Start({}), Launch({1}));
    Load(s, 0, 2);
    Then(Start({}), s, OneLoaded());
    SliceOfOne(1, 0, 2);
    assert Members([1]) * Recipients(s.mails) == {};
    assert OneLoaded().workers == map[0 := Worker(Queuing(0, 2, [1], 0, {}), {})];
  }

  /** The chunk's only mail. */
  function SentFirst(s: State): State {
    s.(mails := [Mail(1, Pending, false)], workers := map[0 := Worker(Queuing(0, 2, [1], 1, {}), {0})])
  }

  lemma SendsFirst(s: State)
    requires s.workers == map[0 := Worker(Queuing(0, 2, [1], 0, {}), {})] && Untouched(s)
    ensures Enabled(s, SendNext(0, false)) && Apply(s, SendNext(0, false)) == SentFirst(s)
  {
    SendAdds(s, 0, false);
    assert At(s, 0).mine + {|s.mails|} == {0};
    var sender := Worker(Queuing(0, 2, [1], 1, {}), {0});
    assert s.workers[0 := sender] == map[0 := sender];
    assert s.mails + [Fresh(1, false)] == [Mail(1, Pending, false)];
  }

  /** A worker that dies after the cancel landed leaves mail that will still go out. */
  lemma DeadWorkerLeavesMail()
    ensures exists t :: Leads(Start({}), t) && t.status == Cancelled && t.revived == {} &&
              (forall w :: w in t.workers ==> t.workers[w].pc.Idle?) && t.mails == [Mail(1, Pending, false)]
  {
    OneLoads();
    var a := OneLoaded();
    CancelsEmpty(a);
    Next(Start({}), a, Cancel);
    var b := a.(status := Cancelled);
    SendsFirst(b);
    Next(Start({}), b, SendNext(0, false));
    var c := SentFirst(b);
    Dies(c);
    Next(Start({}), c, Die(0));
  }

  lemma CancelsEmpty(a: State)
    requires Untouched(a)
    ensures Apply(a, Cancel) == a.(status := Cancelled)
  {
    assert Withdraw(a.mails) == [];
  }

  lemma Dies(c: State)
    requires c.workers == map[0 := Worker(Queuing(0, 2, [1], 1, {}), {0})]
    ensures Enabled(c, Die(0))
    ensures var t := Apply(c, Die(0));
            && t.workers == map[0 := Worker(Idle, {})]
            && t.mails == c.mails && t.status == c.status && t.revived == c.revived
  {
  }

  /** One account, its mail queued and queuing done, no chunk running. */
  function OneQueued(): State {
    OneLoaded().(mails := [Mail(1, Pending, false)], workers := map[0 := Worker(Idle, {})], locked := false,
                 queuedUpTo := 1, queuedAt := true)
  }

  lemma OneQueues()
    ensures Leads(Start({}), OneQueued())
    ensures var s := OneQueued();
            && s.status == Sending && s.late == s.retried == s.lost == s.revived == {}
            && forall w :: w in s.workers ==> s.workers[w].pc.Idle?
  {
    OneLoads();
    var a := OneLoaded();
    SendsFirst(a);
    Next(Start({}), a, SendNext(0, false));
    FinishesFirst(a);
    Then(Start({}), SentFirst(a), OneQueued());
  }

  lemma FinishesFirst(a: State)
    requires a == OneLoaded() && a.status == Sending && Untouched(a)
    ensures Leads(SentFirst(a), OneQueued())
  {
    var b := SentFirst(a);
    WindUp(b, 0);
    Two(b, Finish(0), Release(0));
    assert b.workers[0 := Worker(Idle, {})] == map[0 := Worker(Idle, {})];
  }

  /** A mail that had been claimed when the cancel landed can come back to the queue:
      no chunk died, and the cancelled campaign's mail waits to go out. */
  lemma RequeueRevivesMail()
    ensures exists t :: Leads(Start({}), t) && t.status == Cancelled && t.lost == {} &&
              (forall w :: w in t.workers ==> t.workers[w].pc.Idle?) && t.mails == [Mail(1, Pending, false)]
  {
    OneQueues();
    var a := OneQueued();
    Claims(a);
    Next(Start({}), a, Deliver(0, Claimed));
    var b := a.(mails := [Mail(1, Claimed, false)]);
    CancelsClaimed(b);
    Next(Start({}), b, Cancel);
    var c := b.(status := Cancelled);
    Requeues(c);
    Next(Start({}), c, PutBack(0));
  }

  lemma Claims(a: State)
    requires a.mails == [Mail(1, Pending, false)] && a.revived == a.lost == {}
    ensures Enabled(a, Deliver(0, Claimed)) && Apply(a, Deliver(0, Claimed)) == a.(mails := [Mail(1, Claimed, false)])
  {
  }

  lemma CancelsClaimed(b: State)
    requires b.mails == [Mail(1, Claimed, false)] && b.revived == b.lost == b.late == b.retried == {}
    ensures Apply(b, Cancel) == b.(status := Cancelled)
  {
  }

  lemma Requeues(c: State)
    requires c.mails == [Mail(1, Claimed, false)] && c.status == Cancelled && c.revived == {}
    ensures Enabled(c, PutBack(0))
    ensures Apply(c, PutBack(0)) == c.(mails := [Mail(1, Pending, false)], revived := {0})
  {
  }

  /** The queued mail fails ... */
  lemma Fails(a: State)
    requires a.mails == [Mail(1, Pending, false)] && a.revived == a.lost == a.late == a.retried == {}
    ensures Enabled(a, Deliver(0, Failed))
    ensures Apply(a, Deliver(0, Failed)) == a.(mails := [Mail(1, Failed, false)])
  {
  }

  /** ... the job sees nothing open ... */
  lemma Sees(b: State)
    requires b.status == Sending && b.queuedAt && StillOpen(b.mails) == {}
    ensures Leads(b, b.(listed := true, allOut := true))
  {
    Two(b, BeatLists, BeatSees);
  }

  /** ... and the mail is sent again. */
  lemma SentAgain(c: State)
    requires c.mails == [Mail(1, Failed, false)] && c.allOut && c.retried == {} && c.status != Cancelled
    ensures Enabled(c, PutBack(0))
    ensures Apply(c, PutBack(0)) == c.(mails := [Mail(1, Pending, false)], retried := {0})
  {
  }

  /** The state in which the job has seen the failed mail and nothing open. */
  function SeenFailed(): State {
    OneQueued().(mails := [Mail(1, Failed, false)], listed := true, allOut := true)
  }

  lemma SeesFailed()
    ensures Leads(Start({}), SeenFailed())
    ensures SeenFailed().status == Sending && SeenFailed().retried == SeenFailed().late == {}
  {
    OneQueues();
    var a := OneQueued();
    Fails(a);
    Next(Start({}), a, Deliver(0, Failed));
    var b := a.(mails := [Mail(1, Failed, false)]);
    Sees(b);
    Then(Start({}), b, SeenFailed());
  }

  lemma Completes(c: State)
    requires c.status == Sending && c.allOut
    ensures Enabled(c, BeatCompletes) && Apply(c, BeatCompletes) == c.(status := Completed)
  {
  }

  /** Sending a failed mail again opens a campaign that was complete. */
  lemma RetryOpensCompleted()
    ensures exists t :: Leads(Start({}), t) && t.status == Completed && t.late == {} && t.mails == [Mail(1, Pending, false)]
  {
    SeesFailed();
    var c := SeenFailed();
    Completes(c);
    Next(Start({}), c, BeatCompletes);
    var d := c.(status := Completed);
    SentAgain(d);
    Next(Start({}), d, PutBack(0));
  }

  /** The beat's check and its update are two queries: a failed mail sent again in
      between opens the campaign before it is marked complete. */
  lemma RetryBeforeCompletes()
    ensures exists t :: Leads(Start({}), t) && t.status == Sending && t.allOut && t.mails == [Mail(1, Pending, false)]
  {
    SeesFailed();
    SentAgain(SeenFailed());
    Next(Start({}), SeenFailed(), PutBack(0));
  }

  // ------------------------------------- runs in which the lock expires early

  /** Two accounts, one per chunk. */
  lemma SlicesOfTwo()
    ensures Slice({1, 2}, 0, 1) == [1] && Slice({1, 2}, 1, 1) == [2]
  {
    assert After({1, 2}, 0) == {1, 2};
    assert Least({1, 2}) == 1;
    assert InOrder({1, 2}) == [1] + InOrder({1, 2} - {1});
    assert After({1, 2}, 1) == {2};
    assert InOrder({2}) == [2] + InOrder({2} - {2});
  }

  lemma ExpiresUnder(s: State, w: nat)
    requires s.locked && w in s.workers && !s.workers[w].pc.Idle?
    ensures Leads(s, s.(locked := false, overrun := true))
  {
    One(s, LockExpires);
  }

  /** A worker whose campaign already has its accounts' mail writes back the cursor
      of its own, older slice. */
  lemma OldSliceWins(s: State, w: nat, u: AccountId, size: nat, done: set<AccountId>)
    requires At(s, w).pc == Queuing(0, size, [u], 0, done) && u in Recipients(s.mails) && s.status == Sending
    ensures exists t :: Leads(s, t) && t.queuedUpTo == u && t.mails == s.mails && t.steady == s.steady && t.ever == s.ever
  {
    Two(s, SendNext(w, false), Finish(w));
  }

  lemma FirstOfTwo(c: Queue.Standing)
    requires Queue.Unfinished(c) && c.queuedUpTo == 0 && c.mails == []
    ensures var r := Queue.Chunk(c, {1, 2}, {}, 1, 0, 0).after;
            r == Queue.Standing(Sending, 1, None, [Mail(1, Pending, false)])
  {
    SlicesOfTwo();
    PassFrom([], [1], 0, {});
  }

  lemma SecondOfTwo(c: Queue.Standing)
    requires Queue.Unfinished(c) && c.queuedUpTo == 1 && c.mails == [Mail(1, Pending, false)]
    ensures var r := Queue.Chunk(c, {1, 2}, {}, 1, 1, 0).after;
            r.queuedUpTo == 2 && r.status == Sending && 1 in Recipients(r.mails)
  {
    SlicesOfTwo();
    PassSpec(c.mails, [2], {});
    assert !c.mails[0].isTest && c.mails[0].account == 1;
  }

  lemma LeftTwice(s: State, w: nat, c: Queue.Standing, m: State, d: Queue.Standing, t: State)
    requires Left(s, w, c, m) && Left(m, w, d, t)
    ensures Left(s, w, d, t)
  {
  }

  /** Both accounts' chunks, by one worker alone. */
  lemma TwoChunks(s: State, w: nat)
    requires Ready(s, w) && s.audience == {1, 2} && s.queuedUpTo == 0 && s.mails == []
    ensures exists t, d :: Leads(s, t) && Left(s, w, d, t) && d.queuedUpTo == 2 && d.status == Sending &&
              1 in Recipients(d.mails)
  {
    var c := Queue.Standing(s.status, 0, None, []);
    ChunkAlone(s, w, c, {}, 1, 0);
    FirstOfTwo(c);
    var d := Queue.Standing(Sending, 1, None, [Mail(1, Pending, false)]);
    var m :| Leads(s, m) && Left(s, w, d, m);
    ChunkAlone(m, w, d, {}, 1, 0);
    SecondOfTwo(d);
    var e := Queue.Chunk(d, {1, 2}, {}, 1, 1, 0).after;
    var t :| Leads(m, t) && Left(m, w, e, t);
    Then(s, m, t);
    LeftTwice(s, w, d, m, e, t);
  }

  /** From a worker that holds the first slice and lost its lock: another one
      moves the cursor to 2, then the first one sets it back to 1. */
  lemma GoesBackFrom(b: State)
    requires Ready(b, 1) && b.audience == {1, 2} && b.queuedUpTo == 0 && b.mails == []
    requires At(b, 0).pc == Queuing(0, 1, [1], 0, {})
    ensures exists m, t :: Leads(b, m) && Leads(m, t) && t.queuedUpTo < m.queuedUpTo &&
              t.steady == b.steady && t.ever == b.ever
  {
    TwoChunks(b, 1);
    var m, d :| Leads(b, m) && Left(b, 1, d, m) && d.queuedUpTo == 2 && d.status == Sending && 1 in Recipients(d.mails);
    OldSliceWins(m, 0, 1, 1, {});
    var t :| Leads(m, t) && t.queuedUpTo == 1 && t.mails == m.mails && t.steady == m.steady && t.ever == m.ever;
  }

  /** Two accounts, one chunk about to send to the first, its lock gone. */
  function TwoOverrun(): State {
    Loaded(Apply(Start({}), Launch({1, 2})), 0, 1).(locked := false, overrun := true)
  }

  lemma TwoOverruns()
    ensures Leads(Start({}), TwoOverrun())
  {
    var s := Apply(Start({}), Launch({1, 2}));
    One(Start({}), Launch({1, 2}));
    Load(s, 0, 1);
    Then(Start({}), s, Loaded(s, 0, 1));
    ExpiresUnder(Loaded(s, 0, 1), 0);
    Then(Start({}), Loaded(s, 0, 1), TwoOverrun());
  }

  lemma TwoLaunched()
    ensures Apply(Start({}), Launch({1, 2})) ==
            Start({}).(status := Queued, audience := {1, 2}, launched := true, steady := {1, 2}, ever := {1, 2})
  {
  }

  lemma TwoOverrunIs()
    ensures var b := TwoOverrun();
            && Ready(b, 1) && b.audience == {1, 2} && b.queuedUpTo == 0 && b.mails == []
            && At(b, 0).pc == Queuing(0, 1, [1], 0, {}) && b.steady == b.ever == {1, 2}
  {
    TwoLaunched();
    LoadedTwo(Apply(Start({}), Launch({1, 2})));
  }

  lemma LoadedTwo(s: State)
    requires s.audience == {1, 2} && s.queuedUpTo == 0 && s.mails == []
    ensures Loaded(s, 0, 1) == Move(s, 0, Queuing(0, 1, [1], 0, {})).(locked := true, status := Sending)
  {
    SlicesOfTwo();
    assert Members([1]) * Recipients(s.mails) == {};
  }

  /** When the lock does expire under a running chunk the cursor can go back, even
      with an audience that never changes: the last update does not look at it. */
  lemma CursorCanGoBack()
    ensures exists m, t :: Leads(Start({}), m) && Leads(m, t) && t.queuedUpTo < m.queuedUpTo &&
              t.steady == t.ever == {1, 2}
  {
    var b := TwoOverrun();
    TwoOverruns();
    TwoOverrunIs();
    GoesBackFrom(b);
    var m, t :| Leads(b, m) && Leads(m, t) && t.queuedUpTo < m.queuedUpTo && t.steady == b.steady && t.ever == b.ever;
    Then(Start({}), b, m);
  }

  lemma CompletesEmpty(s: State)
    requires s.status == Sending && s.queuedAt && s.mails == []
    ensures Leads(s, s.(listed := true, allOut := true, status := Completed))
  {
    Sees(s);
    var c := s.(listed := true, allOut := true);
    Completes(c);
    Next(s, c, BeatCompletes);
  }

  /** The audience may change while a chunk overruns its lock: a row can then come
      after the campaign was complete, to somebody who had left the audience. */
  lemma LateRowAfterCompleted()
    ensures exists t :: Leads(Start({}), t) && t.status == Completed && t.retried == {} && t.late == {0} &&
              t.mails == [Mail(1, Pending, false)] && t.audience == {}
  {
    OneLoads();
    var a := OneLoaded();
    var b := Apply(a, Resubscribe({}));
    Next(Start({}), a, Resubscribe({}));
    LateFrom(b);
    var t :| Leads(b, t) && t.status == Completed && t.retried == {} && t.late == {0} &&
             t.mails == [Mail(1, Pending, false)] && t.audience == {};
    Then(Start({}), b, t);
  }

  lemma LateFrom(b: State)
    requires At(b, 0).pc == Queuing(0, 2, [1], 0, {}) && At(b, 1).pc.Idle? && b.locked
    requires b.status == Sending && !b.queuedAt && b.mails == [] && b.audience == {} && b.retried == b.late == {}
    ensures exists t :: Leads(b, t) && t.status == Completed && t.retried == {} && t.late == {0} &&
              t.mails == [Mail(1, Pending, false)] && t.audience == {}
  {
    ExpiresUnder(b, 0);
    var c := b.(locked := false, overrun := true);
    EmptyChunk(c, 1);
    var d := c.(workers := c.workers[1 := Worker(Idle, {})], queuedAt := true);
    Then(b, c, d);
    CompletesEmpty(d);
    var e := d.(listed := true, allOut := true, status := Completed);
    Then(b, d, e);
    Next(b, e, SendNext(0, false));
    SendsLate(e);
  }

  lemma SendsLate(e: State)
    requires At(e, 0).pc == Queuing(0, 2, [1], 0, {}) && e.mails == [] && e.late == {} && e.allOut
    ensures var t := Apply(e, SendNext(0, false));
            t.mails == [Mail(1, Pending, false)] && t == e.(mails := t.mails, late := {0}, workers := t.workers)
  {
  }

  /** A chunk that finds nobody left marks queuing as done. */
  lemma EmptyChunk(s: State, w: nat)
    requires Ready(s, w) && s.audience == {} && s.status == Sending
    ensures Leads(s, s.(workers := s.workers[w := Worker(Idle, {})], queuedAt := true))
  {
    Load(s, w, 2);
    var a := Loaded(s, w, 2);
    assert After({}, s.queuedUpTo) == {};
    assert Slice({}, s.queuedUpTo, 2) == [];
    WindUp(a, w);
    Two(a, Finish(w), Release(w));
    var t := Apply(Apply(a, Finish(w)), Release(w));
    assert t.workers == s.workers[w := Worker(Idle, {})];
    assert t == s.(workers := s.workers[w := Worker(Idle, {})], queuedAt := true);
    Then(s, a, t);
  }
}

/** The shared data cache (core/caching.py): readers get, build and set; writers
    write, delete, commit and delete again. The readers are outside the writer's
    transaction, so they build from committed rows. */
module SharedCache {
  import opened Basics

  /** What a list is built from; a build is the committed rows themselves. */
  type Rows = int

  datatype Reader = Resting | Missed | Holding(value: Rows, epoch: nat)

  /** `Landed(n)`: commit number `n` is in, its second delete is not. */
  datatype Writer = Quiet | Wrote(rows: Rows) | Deleted(rows: Rows) | Landed(n: nat)

  /** `epoch` is the number of commits the value was built after; `storedAt` counts
      steps, `expires` is on the clock. */
  datatype Entry = Entry(value: Rows, expires: int, epoch: nat, storedAt: nat)

  /** `log[n]` is what commit number `n` left in the database (`log[0]` what was
      there before); `cleared[n]` is the step of its second delete, and `lost` are
      the commits whose writer died before it. */
  datatype State = State(
    clock: int, log: seq<Rows>, entry: Option<Entry>, readers: map<nat, Reader>, writers: map<nat, Writer>,
    step: nat, cleared: map<nat, nat>, lost: set<nat>)

  datatype Step =
    | Get(r: nat)
    | Build(r: nat)
    | Store(r: nat, timeout: nat)
    | GiveUp(r: nat)
    | Write(w: nat, rows: Rows)
    | DeleteNow(w: nat)
    | Commit(w: nat)
    | DeleteOnCommit(w: nat)
    | Rollback(w: nat)
    | Die(w: nat)
    | Tick(length: nat)
    | Evict

  function ReaderAt(s: State, r: nat): Reader {
    if r in s.readers then s.readers[r] else Resting
  }

  function WriterAt(s: State, w: nat): Writer {
    if w in s.writers then s.writers[w] else Quiet
  }

  function Committed(s: State): Rows
    requires s.log != []
  {
    s.log[|s.log| - 1]
  }

  predicate Alive(s: State) {
    s.entry.Some? && s.clock < s.entry.value.expires
  }

  predicate Enabled(s: State, step: Step) {
    match step
    case Get(r) => ReaderAt(s, r).Resting?
    case Build(r) => ReaderAt(s, r).Missed?
    case Store(r, _) => ReaderAt(s, r).Holding?
    case GiveUp(r) => !ReaderAt(s, r).Resting?
    case Write(w, _) => WriterAt(s, w).Quiet?
    case DeleteNow(w) => WriterAt(s, w).Wrote?
    case Commit(w) => WriterAt(s, w).Deleted?
    case DeleteOnCommit(w) => WriterAt(s, w).Landed?
    case Rollback(w) => WriterAt(s, w).Wrote? || WriterAt(s, w).Deleted?
    case Die(w) => WriterAt(s, w).Landed?
    case Tick(_) => true
    case Evict => true
  }

  /** What the runs range over: a read or an uncommitted write may be given up at any
      moment, a writer die after its commit, time pass, and the cache drop a value. */
  lemma AnythingMayHappen(s: State, r: nat, w: nat, length: nat)
    ensures Enabled(s, Tick(length)) && Enabled(s, Evict)
    ensures Enabled(s, GiveUp(r)) <==> r in s.readers && !s.readers[r].Resting?
    ensures Enabled(s, Rollback(w)) <==> w in s.writers && (s.writers[w].Wrote? || s.writers[w].Deleted?)
    ensures Enabled(s, Die(w)) <==> w in s.writers && s.writers[w].Landed?
  {
  }

  function Effect(s: State, step: Step): State
    requires s.log != [] && Enabled(s, step)
  {
    match step
    case Get(r) => if Alive(s) then s else s.(readers := s.readers[r := Missed])
    case Build(r) => s.(readers := s.readers[r := Holding(Committed(s), |s.log| - 1)])
    case Store(r, timeout) =>
      var held := ReaderAt(s, r);
      s.(readers := s.readers[r := Resting],
         entry := Some(Entry(held.value, s.clock + timeout, held.epoch, s.step)))
    case GiveUp(r) => s.(readers := s.readers[r := Resting])
    case Write(w, rows) => s.(writers := s.writers[w := Wrote(rows)])
    case DeleteNow(w) => s.(writers := s.writers[w := Deleted(WriterAt(s, w).rows)], entry := None)
    case Commit(w) => s.(writers := s.writers[w := Landed(|s.log|)], log := s.log + [WriterAt(s, w).rows])
    case DeleteOnCommit(w) =>
      s.(writers := s.writers[w := Quiet], entry := None, cleared := s.cleared[WriterAt(s, w).n := s.step])
    case Rollback(w) => s.(writers := s.writers[w := Quiet])
    case Die(w) => s.(writers := s.writers[w := Quiet], lost := s.lost + {WriterAt(s, w).n})
    case Tick(length) => s.(clock := s.clock + length)
    case Evict => s.(entry := None)
  }

  function Apply(s: State, step: Step): (t: State)
    requires s.log != [] && Enabled(s, step)
    ensures s.log <= t.log
  {
    var t := Effect(s, step);
    t.(step := s.step + 1)
  }

  function Start(rows: Rows, clock: int): State {
    State(clock, [rows], None, map[], map[], 0, map[], {})
  }

  predicate Possible(s: State, steps: seq<Step>)
    requires s.log != []
    decreases |steps|, 0
  {
    steps == [] || (Possible(s, steps[..|steps| - 1]) && Enabled(Exec(s, steps[..|steps| - 1]), steps[|steps| - 1]))
  }

  function Exec(s: State, steps: seq<Step>): (t: State)
    requires s.log != [] && Possible(s, steps)
    ensures t.log != []
    decreases |steps|, 1
  {
    if steps == [] then s else Apply(Exec(s, steps[..|steps| - 1]), steps[|steps| - 1])
  }

  // ------------------------------------------------------------- every run

  /** Built values are what their epoch committed. */
  ghost predicate Honest(s: State) {
    && s.log != []
    && (forall r :: r in s.readers && s.readers[r].Holding? ==>
         s.readers[r].epoch < |s.log| && s.readers[r].value == s.log[s.readers[r].epoch])
    && (s.entry.Some? ==> s.entry.value.epoch < |s.log| && s.entry.value.value == s.log[s.entry.value.epoch])
  }

  /** Every commit was cleared, is about to be, or lost its writer; and a cached
      value was stored after every clearing there has been. */
  ghost predicate Tidy(s: State) {
    && (forall n :: 0 < n < |s.log| ==> n in s.cleared || n in s.lost || exists w :: w in s.writers && s.writers[w] == Landed(n))
    && (forall n :: n in s.cleared ==> s.cleared[n] < s.step)
    && (s.entry.Some? ==> forall n :: n in s.cleared ==> s.cleared[n] < s.entry.value.storedAt)
  }

  lemma HonestStep(s: State, step: Step)
    requires Honest(s) && Enabled(s, step)
    ensures Honest(Apply(s, step))
  {
  }

  lemma TidyStep(s: State, step: Step)
    requires s.log != [] && Tidy(s) && Enabled(s, step)
    ensures Tidy(Apply(s, step))
  {
    var t := Apply(s, step);
    forall n | 0 < n < |t.log| ensures n in t.cleared || n in t.lost || exists w :: w in t.writers && t.writers[w] == Landed(n) {
      match step {
        case Commit(w) =>
          if n == |s.log| { assert t.writers[w] == Landed(n); } else { Others(s, t, w, n); }
        case Write(w, _) => Others(s, t, w, n);
        case DeleteNow(w) => Others(s, t, w, n);
        case DeleteOnCommit(w) => Others(s, t, w, n);
        case Rollback(w) => Others(s, t, w, n);
        case Die(w) => Others(s, t, w, n);
        case _ => assert t.writers == s.writers && t.cleared == s.cleared && t.lost == s.lost && t.log == s.log;
      }
    }
  }

  /** What the other writers were about to clear they still are. */
  lemma Others(s: State, t: State, w: nat, n: nat)
    requires n in s.cleared || n in s.lost || exists v :: v in s.writers && s.writers[v] == Landed(n)
    requires forall v :: v in s.writers && v != w ==> v in t.writers && t.writers[v] == s.writers[v]
    requires WriterAt(s, w).Landed? ==> WriterAt(s, w).n in t.cleared || WriterAt(s, w).n in t.lost
    requires s.cleared.Keys <= t.cleared.Keys && s.lost <= t.lost
    ensures n in t.cleared || n in t.lost || exists v :: v in t.writers && t.writers[v] == Landed(n)
  {
  }

  lemma {:induction false} Always(rows: Rows, clock: int, steps: seq<Step>)
    requires Possible(Start(rows, clock), steps)
    ensures Honest(Exec(Start(rows, clock), steps)) && Tidy(Exec(Start(rows, clock), steps))
    decreases |steps|
  {
    if steps == [] {
    } else {
      var before := steps[..|steps| - 1];
      Always(rows, clock, before);
      HonestStep(Exec(Start(rows, clock), before), steps[|steps| - 1]);
      TidyStep(Exec(Start(rows, clock), before), steps[|steps| - 1]);
    }
  }

  /** No commit waits for its second delete, and none went without. */
  ghost predicate AtRest(s: State) {
    s.lost == {} && forall w :: w in s.writers ==> !s.writers[w].Landed?
  }

  /** The reader of this entry built it before commit `n` and stored it after that
      commit's second delete. */
  ghost predicate Straddles(s: State, entry: Entry, n: nat) {
    entry.epoch < n < |s.log| && n in s.cleared && s.cleared[n] < entry.storedAt
  }

  /** At rest a cached value is what its own epoch committed. It is from the latest
      commit if and only if its reader straddled no commit; if it straddled one it
      straddled every later one as well. */
  lemma CachedAtRest(rows: Rows, clock: int, steps: seq<Step>)
    requires Possible(Start(rows, clock), steps)
    requires AtRest(Exec(Start(rows, clock), steps)) && Exec(Start(rows, clock), steps).entry.Some?
    ensures var s := Exec(Start(rows, clock), steps);
            var entry := s.entry.value;
            && entry.epoch < |s.log| && entry.value == s.log[entry.epoch]
            && (entry.epoch == |s.log| - 1 <==> forall n :: !Straddles(s, entry, n))
            && (forall n :: entry.epoch < n < |s.log| ==> Straddles(s, entry, n))
            && ((forall n :: !Straddles(s, entry, n)) ==> entry.value == Committed(s))
  {
    Always(rows, clock, steps);
    var s := Exec(Start(rows, clock), steps);
    var entry := s.entry.value;
    forall n | entry.epoch < n < |s.log| ensures Straddles(s, entry, n) {
    }
    if entry.epoch < |s.log| - 1 {
      assert Straddles(s, entry, |s.log| - 1);
    }
  }

  /** Once a commit's second delete is done, a reader that starts afterwards never
      sees what was there before it, unless some reader straddled it. */
  lemma {:induction false} ClearedIsSeen(rows: Rows, clock: int, steps: seq<Step>, n: nat)
    requires Possible(Start(rows, clock), steps)
    requires Exec(Start(rows, clock), steps).entry.Some? && n in Exec(Start(rows, clock), steps).cleared
    requires n < |Exec(Start(rows, clock), steps).log|
    ensures var s := Exec(Start(rows, clock), steps);
            n <= s.entry.value.epoch || Straddles(s, s.entry.value, n)
  {
    Always(rows, clock, steps);
  }

  /** A read that finds a living value is over, and changes nothing; any other one goes
      on to build. Both of a writer's deletes leave nothing in the cache, whoever has
      stored what before, and only the second one settles a commit. */
  lemma ReadsAndDeletes(s: State, step: Step)
    requires s.log != [] && Enabled(s, step)
    ensures step.Get? && s.entry.Some? && s.clock < s.entry.value.expires ==> Apply(s, step) == s.(step := s.step + 1)
    ensures step.Get? && (s.entry.Some? ==> s.entry.value.expires <= s.clock) ==>
              Apply(s, step) == s.(step := s.step + 1, readers := s.readers[step.r := Missed])
    ensures step.DeleteNow? || step.DeleteOnCommit? ==>
              Apply(s, step).entry == None && Apply(s, step).log == s.log && Apply(s, step).readers == s.readers
    ensures step.Commit? ==> WriterAt(s, step.w).Deleted? && Apply(s, step).log == s.log + [WriterAt(s, step.w).rows]
    ensures step.DeleteOnCommit? ==> WriterAt(s, step.w).Landed? && Apply(s, step).cleared.Keys == s.cleared.Keys + {WriterAt(s, step.w).n}
  {
  }

  // -------------------------------------------- exactly when an entry goes stale

  /** Some writer has yet to do its second delete for commit `n`. */
  ghost predicate WillClear(s: State, n: nat) {
    exists w :: w in s.writers && s.writers[w] == Landed(n)
  }

  /** The cached value, if there is one, is the latest, or will be cleared for every
      commit after its own. */
  ghost predicate Clean(s: State) {
    s.entry.Some? ==> forall n :: s.entry.value.epoch < n < |s.log| ==> WillClear(s, n)
  }

  /** A reader stores what it built before a commit that no writer will still clear, or
      the last writer dies that would clear the entry for a commit. */
  ghost predicate Stales(s: State, step: Step) {
    match step
    case Store(r, _) =>
      ReaderAt(s, r).Holding? && exists n :: ReaderAt(s, r).epoch < n < |s.log| && !WillClear(s, n)
    case Die(w) =>
      && s.entry.Some? && WriterAt(s, w).Landed? && s.entry.value.epoch < WriterAt(s, w).n < |s.log|
      && forall v :: v in s.writers && v != w ==> s.writers[v] != WriterAt(s, w)
    case _ => false
  }

  lemma CleanDies(s: State, step: Step)
    requires s.log != [] && Clean(s) && Enabled(s, step) && step.Die?
    ensures Clean(Apply(s, step)) <==> !Stales(s, step)
  {
    var w, t := step.w, Apply(s, step);
    var own := WriterAt(s, w).n;
    forall n: nat | WillClear(s, n) && n != own ensures WillClear(t, n) {
      var v :| v in s.writers && s.writers[v] == Landed(n);
      assert t.writers[v] == Landed(n);
    }
    if v :| v in s.writers && v != w && s.writers[v] == Landed(own) {
      assert t.writers[v] == Landed(own);
      assert WillClear(t, own);
    } else {
      assert forall v :: v in t.writers ==> t.writers[v] != Landed(own);
      assert !WillClear(t, own);
    }
  }

  /** Every other writer's step leaves the deletes that were to come, or clears. */
  lemma CleanWrites(s: State, step: Step)
    requires s.log != [] && Clean(s) && Enabled(s, step)
    requires step.Write? || step.DeleteNow? || step.Commit? || step.DeleteOnCommit? || step.Rollback?
    ensures Clean(Apply(s, step))
  {
    var w, t := step.w, Apply(s, step);
    forall n: nat | WillClear(s, n) && !WriterAt(s, w).Landed? ensures WillClear(t, n) {
      var v :| v in s.writers && s.writers[v] == Landed(n);
      assert t.writers[v] == Landed(n);
    }
    if step.Commit? { assert t.writers[w] == Landed(|s.log|); }
  }

  /** From a clean cache a step leaves a stale entry that nothing will clear exactly
      then. */
  lemma CleanExactly(s: State, step: Step)
    requires s.log != [] && Clean(s) && Enabled(s, step)
    ensures Clean(Apply(s, step)) <==> !Stales(s, step)
  {
    match step {
      case Die(_) => CleanDies(s, step);
      case Write(_, _) => CleanWrites(s, step);
      case DeleteNow(_) => CleanWrites(s, step);
      case Commit(_) => CleanWrites(s, step);
      case DeleteOnCommit(_) => CleanWrites(s, step);
      case Rollback(_) => CleanWrites(s, step);
      case _ =>
        assert Apply(s, step).writers == s.writers && Apply(s, step).log == s.log;
        assert forall n :: WillClear(Apply(s, step), n) <==> WillClear(s, n);
    }
  }

  lemma CleanAtRest(s: State)
    requires Honest(s) && AtRest(s)
    ensures Clean(s) && s.entry.Some? ==> s.entry.value.value == Committed(s)
  {
    assert !WillClear(s, |s.log| - 1);
  }

  ghost predicate AlwaysClean(s: State, steps: seq<Step>)
    requires s.log != [] && Possible(s, steps)
    decreases |steps|
  {
    Clean(Exec(s, steps)) && (steps == [] || AlwaysClean(s, steps[..|steps| - 1]))
  }

  ghost predicate NeverStales(s: State, steps: seq<Step>)
    requires s.log != [] && Possible(s, steps)
    decreases |steps|
  {
    steps == [] ||
    (NeverStales(s, steps[..|steps| - 1]) && !Stales(Exec(s, steps[..|steps| - 1]), steps[|steps| - 1]))
  }

  /** Over every run: a cached value is always the latest or about to be cleared if and
      only if no step leaves one stale; and then at rest it is the latest. */
  lemma {:induction false} CacheStaysClean(rows: Rows, clock: int, steps: seq<Step>)
    requires Possible(Start(rows, clock), steps)
    ensures AlwaysClean(Start(rows, clock), steps) <==> NeverStales(Start(rows, clock), steps)
    ensures var s := Exec(Start(rows, clock), steps);
            NeverStales(Start(rows, clock), steps) && AtRest(s) && s.entry.Some? ==> s.entry.value.value == Committed(s)
    decreases |steps|
  {
    Always(rows, clock, steps);
    if AtRest(Exec(Start(rows, clock), steps)) { CleanAtRest(Exec(Start(rows, clock), steps)); }
    if steps == [] {
    } else {
      var before := steps[..|steps| - 1];
      CacheStaysClean(rows, clock, before);
      if AlwaysClean(Start(rows, clock), before) {
        CleanExactly(Exec(Start(rows, clock), before), steps[|steps| - 1]);
      }
    }
  }

  // --------------------------------------------------- the time it can last

  lemma EntryStep(s: State, step: Step)
    requires s.log != [] && Enabled(s, step)
    ensures var t := Apply(s, step);
            && t.step == s.step + 1
            && (t.entry == s.entry || t.entry == None || t.entry.value.storedAt == s.step)
  {
  }

  /** An entry's life is measured from when it was stored, and nothing prolongs it:
      whatever happens next, an entry that is still the same one is dead once its
      expiry has come. */
  lemma {:induction false} OutlivesNothing(s: State, steps: seq<Step>)
    requires s.log != [] && Possible(s, steps) && s.entry.Some?
    requires s.entry.value.storedAt < s.step
    ensures var t := Exec(s, steps);
            && s.step <= t.step
            && (t.entry == s.entry || t.entry == None || s.step <= t.entry.value.storedAt)
    decreases |steps|
  {
    if steps == [] {
    } else {
      var before := steps[..|steps| - 1];
      OutlivesNothing(s, before);
      EntryStep(Exec(s, before), steps[|steps| - 1]);
    }
  }

  /** What a reader stores with a timeout is gone when the timeout is over: whatever
      happened since, an entry that is alive then was stored later. */
  lemma {:induction false} GoneByItsTimeout(s: State, r: nat, timeout: nat, steps: seq<Step>)
    requires s.log != [] && Enabled(s, Store(r, timeout)) && Possible(Apply(s, Store(r, timeout)), steps)
    ensures var t := Exec(Apply(s, Store(r, timeout)), steps);
            Alive(t) && s.clock + timeout <= t.clock ==> s.step < t.entry.value.storedAt
  {
    OutlivesNothing(Apply(s, Store(r, timeout)), steps);
  }

  // -------------------------------------------------------- the stale run

  ghost predicate Reaches(s: State, t: State) {
    s.log != [] && exists steps :: Possible(s, steps) && Exec(s, steps) == t
  }

  lemma ReachesItself(s: State)
    requires s.log != []
    ensures Reaches(s, s)
  {
    var none: seq<Step> := [];
    assert Possible(s, none) && Exec(s, none) == s;
  }

  lemma ReachesNext(s: State, t: State, step: Step)
    requires Reaches(s, t) && t.log != [] && Enabled(t, step)
    ensures Reaches(s, Apply(t, step))
  {
    var steps :| Possible(s, steps) && Exec(s, steps) == t;
    var more := steps + [step];
    assert more[..|more| - 1] == steps;
    assert Possible(s, more) && Exec(s, more) == Apply(t, step);
  }

  /** The reader holds what it built ... */
  function Held(): State {
    Start(0, 0).(readers := map[0 := Holding(0, 0)], step := 2)
  }

  lemma ReaderBuilds()
    ensures Reaches(Start(0, 0), Held())
  {
    var s := Start(0, 0);
    ReachesItself(s);
    ReachesNext(s, s, Get(0));
    var a := s.(readers := map[0 := Missed], step := 1);
    assert Apply(s, Get(0)) == a;
    ReachesNext(s, a, Build(0));
    assert Apply(a, Build(0)) == Held();
  }

  /** ... while a whole write goes by ... */
  lemma WriterGoesBy()
    ensures Reaches(Start(0, 0), Cleared())
  {
    var s, h := Start(0, 0), Held();
    ReaderBuilds();
    ReachesNext(s, h, Write(0, 1));
    var a := h.(writers := map[0 := Wrote(1)], step := 3);
    assert Apply(h, Write(0, 1)) == a;
    ReachesNext(s, a, DeleteNow(0));
    var b := h.(writers := map[0 := Deleted(1)], step := 4);
    assert Apply(a, DeleteNow(0)) == b;
    WriterCommits(b);
  }

  lemma WriterCommits(b: State)
    requires Reaches(Start(0, 0), b) && b == Held().(writers := map[0 := Deleted(1)], step := 4)
    ensures Reaches(Start(0, 0), Cleared())
  {
    var s := Start(0, 0);
    ReachesNext(s, b, Commit(0));
    var c := Held().(writers := map[0 := Landed(1)], log := [0, 1], step := 5);
    assert Apply(b, Commit(0)) == c;
    ReachesNext(s, c, DeleteOnCommit(0));
    assert Apply(c, DeleteOnCommit(0)) == Cleared();
  }

  function Cleared(): State {
    Held().(writers := map[0 := Quiet], log := [0, 1], cleared := map[1 := 5], step := 6)
  }

  /** A reader that builds just before a commit and stores just after its second
      delete leaves the old rows in the cache, with nothing left to clear them. */
  lemma StraddlingReader()
    ensures exists s :: Reaches(Start(0, 0), s) && s.log != [] && AtRest(s) && Alive(s) && s.entry.value.value == 0 && Committed(s) == 1
  {
    WriterGoesBy();
    ReachesNext(Start(0, 0), Cleared(), Store(0, 60));
    var s := Cleared().(readers := map[0 := Resting], entry := Some(Entry(0, 60, 0, 6)), step := 7);
    assert Apply(Cleared(), Store(0, 60)) == s;
  }

  // ---------------------------------------------------------- the functions

  class Cache {
    /** key -> (value, expiry) */
    var values: map<string, (Rows, int)>
    /** the keys that the open transaction will clear again when it commits */
    var onCommit: set<string>

    constructor ()
      ensures values == map[] && onCommit == {}
    {
      values, onCommit := map[], {};
    }

    predicate Hit(key: string, now: int)
      reads this
    {
      key in values && now < values[key].1
    }

    /** `built` is what building now would give, `timeout` the seconds for it. */
    method Cached(key: string, built: Rows, timeout: nat, now: int) returns (value: Rows)
      modifies this`values
      ensures old(Hit(key, now)) <==> key in old(values) && now < old(values)[key].1
      ensures old(Hit(key, now)) ==> value == old(values[key].0) && values == old(values)
      ensures !old(Hit(key, now)) ==> value == built && values == old(values)[key := (built, now + timeout)]
      ensures Hit(key, now) || timeout == 0
    {
      if key in values && now < values[key].1 {
        return values[key].0;
      }
      values := values[key := (built, now + timeout)];
      value := built;
    }

    /** Forget these keys now, and again at the commit. */
    method Clear(keys: seq<string>)
      modifies this
      ensures values == old(values) - (set k | k in keys)
      ensures onCommit == old(onCommit) + (set k | k in keys)
      ensures forall k, now :: k in keys ==> !Hit(k, now)
    {
      values := values - (set k | k in keys);
      onCommit := onCommit + (set k | k in keys);
    }

    /** Whatever readers stored since, a cleared key is gone once the commit is done,
        and no other key is touched. */
    method Commit()
      modifies this
      ensures values == old(values) - old(onCommit)
      ensures onCommit == {}
      ensures forall k, now :: k in old(onCommit) ==> !Hit(k, now)
    {
      values := values - onCommit;
      onCommit := {};
    }
  }
}

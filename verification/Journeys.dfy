/** A journey's daily run and its cool-down (campaigns/journeys.py). Times are
    microseconds. */
module Journeys {
  import opened Audience

  const DAY := 86_400_000_000

  /** `cooldown` is the cool-down, in days, of the run that made the delivery. */
  datatype Delivery = Delivery(user: AccountId, at: int, cooldown: nat)

  predicate Recent(deliveries: seq<Delivery>, u: AccountId, now: int, cooldown: nat) {
    exists i :: 0 <= i < |deliveries| && deliveries[i].user == u && deliveries[i].at >= now - cooldown * DAY
  }

  /** Who gets it on a run at `now`: matching, and not within the cool-down. */
  function Due(deliveries: seq<Delivery>, audience: set<AccountId>, now: int, cooldown: nat): set<AccountId> {
    set u | u in audience && !Recent(deliveries, u, now, cooldown)
  }

  /** One run: who matched when it started, and the moments its deliveries were
      written. */
  datatype Run = Run(audience: set<AccountId>, now: int, cooldown: nat, stamps: seq<int>)

  function Made(due: seq<AccountId>, stamps: seq<int>, cooldown: nat): (made: seq<Delivery>)
    requires |due| == |stamps|
    ensures |made| == |due|
    ensures forall k :: 0 <= k < |due| ==> made[k] == Delivery(due[k], stamps[k], cooldown)
  {
    seq(|due|, k requires 0 <= k < |due| => Delivery(due[k], stamps[k], cooldown))
  }

  function DueOf(deliveries: seq<Delivery>, run: Run): seq<AccountId> {
    InOrder(Due(deliveries, run.audience, run.now, run.cooldown))
  }

  ghost predicate Possible(deliveries: seq<Delivery>, runs: seq<Run>)
    decreases |runs|
  {
    runs == [] ||
    (|runs[0].stamps| == |DueOf(deliveries, runs[0])| && Possible(After(deliveries, runs[0]), runs[1..]))
  }

  function After(deliveries: seq<Delivery>, run: Run): seq<Delivery>
    requires |run.stamps| == |DueOf(deliveries, run)|
  {
    deliveries + Made(DueOf(deliveries, run), run.stamps, run.cooldown)
  }

  ghost function Exec(deliveries: seq<Delivery>, runs: seq<Run>): (after: seq<Delivery>)
    requires Possible(deliveries, runs)
    ensures deliveries <= after
    decreases |runs|
  {
    if runs == [] then deliveries else Exec(After(deliveries, runs[0]), runs[1..])
  }

  /** A later delivery to the same account is more than its run's cool-down after an
      earlier one. */
  ghost predicate CooledDown(deliveries: seq<Delivery>) {
    forall i, j :: 0 <= i < j < |deliveries| && deliveries[i].user == deliveries[j].user ==>
      deliveries[j].at - deliveries[i].at > deliveries[j].cooldown * (24 * 3600 * 1_000_000)
  }

  /** Every account is still due at the moment its delivery is written. */
  ghost predicate StillDue(deliveries: seq<Delivery>, run: Run)
    requires |run.stamps| == |DueOf(deliveries, run)|
  {
    forall k :: 0 <= k < |run.stamps| ==> !Recent(deliveries, DueOf(deliveries, run)[k], run.stamps[k], run.cooldown)
  }

  lemma StillDueCoolsDown(deliveries: seq<Delivery>, run: Run)
    requires CooledDown(deliveries) && |run.stamps| == |DueOf(deliveries, run)| && StillDue(deliveries, run)
    ensures CooledDown(After(deliveries, run))
  {
    var due := DueOf(deliveries, run);
    var made := Made(due, run.stamps, run.cooldown);
    var all := deliveries + made;
    assert forall a, b :: 0 <= a < b < |due| ==> made[a].user == due[a] < due[b] == made[b].user;
    forall i, j | 0 <= i < j < |all| && all[i].user == all[j].user
      ensures all[j].at - all[i].at > all[j].cooldown * DAY
    {
      if |deliveries| <= j {
        var k := j - |deliveries|;
        assert all[j] == made[k] == Delivery(due[k], run.stamps[k], run.cooldown);
        if i < |deliveries| {
          assert !Recent(deliveries, due[k], run.stamps[k], run.cooldown);
        }
      }
    }
  }

  lemma CoolingDownMeansDue(deliveries: seq<Delivery>, run: Run)
    requires |run.stamps| == |DueOf(deliveries, run)| && CooledDown(After(deliveries, run))
    ensures StillDue(deliveries, run)
  {
    var due, all := DueOf(deliveries, run), After(deliveries, run);
    forall k | 0 <= k < |run.stamps| ensures !Recent(deliveries, due[k], run.stamps[k], run.cooldown) {
      var j := |deliveries| + k;
      assert all[j] == Delivery(due[k], run.stamps[k], run.cooldown);
      forall i | 0 <= i < |deliveries| && deliveries[i].user == due[k]
        ensures deliveries[i].at < run.stamps[k] - run.cooldown * DAY
      {
        assert all[i] == deliveries[i] && all[i].user == all[j].user;
      }
    }
  }

  /** One run keeps the cool-down exactly when every account is still due at the moment
      its delivery is written, as it was when the run started. */
  lemma RunCoolsDownExactly(deliveries: seq<Delivery>, run: Run)
    requires CooledDown(deliveries) && |run.stamps| == |DueOf(deliveries, run)|
    ensures CooledDown(After(deliveries, run)) <==> StillDue(deliveries, run)
  {
    if StillDue(deliveries, run) { StillDueCoolsDown(deliveries, run); }
    if CooledDown(After(deliveries, run)) { CoolingDownMeansDue(deliveries, run); }
  }

  ghost predicate AllStillDue(deliveries: seq<Delivery>, runs: seq<Run>)
    requires Possible(deliveries, runs)
    decreases |runs|
  {
    runs == [] || (StillDue(deliveries, runs[0]) && AllStillDue(After(deliveries, runs[0]), runs[1..]))
  }

  lemma CooledDownBefore(deliveries: seq<Delivery>, more: seq<Delivery>)
    requires deliveries <= more && CooledDown(more)
    ensures CooledDown(deliveries)
  {
    assert forall i :: 0 <= i < |deliveries| ==> deliveries[i] == more[i];
  }

  /** Over any runs, one after the other, with any audiences and any changes of the
      cool-down in between: two deliveries to one account are further apart than the
      cool-down in force at the later one, if and only if every run does that. */
  lemma {:induction false} CoolDownExactly(deliveries: seq<Delivery>, runs: seq<Run>)
    requires CooledDown(deliveries) && Possible(deliveries, runs)
    ensures CooledDown(Exec(deliveries, runs)) <==> AllStillDue(deliveries, runs)
    decreases |runs|
  {
    if runs == [] {
    } else {
      RunCoolsDownExactly(deliveries, runs[0]);
      var after := After(deliveries, runs[0]);
      if StillDue(deliveries, runs[0]) {
        CoolDownExactly(after, runs[1..]);
      } else if CooledDown(Exec(deliveries, runs)) {
        CooledDownBefore(after, Exec(deliveries, runs));
      }
    }
  }

  /** No delivery is written before the time its run counted from. */
  ghost predicate Timely(run: Run) {
    forall k :: 0 <= k < |run.stamps| ==> run.now <= run.stamps[k]
  }

  lemma TimelyIsStillDue(deliveries: seq<Delivery>, run: Run)
    requires |run.stamps| == |DueOf(deliveries, run)| && Timely(run)
    ensures StillDue(deliveries, run)
  {
    var due := DueOf(deliveries, run);
    forall k | 0 <= k < |run.stamps| ensures !Recent(deliveries, due[k], run.stamps[k], run.cooldown) {
      assert due[k] in due;
      assert !Recent(deliveries, due[k], run.now, run.cooldown);
    }
  }

  /** So runs that are not ahead of the clock always keep the cool-down, and no earlier
      delivery is lost. */
  lemma {:induction false} CoolDownHolds(deliveries: seq<Delivery>, runs: seq<Run>)
    requires CooledDown(deliveries) && Possible(deliveries, runs)
    requires forall k :: 0 <= k < |runs| ==> Timely(runs[k])
    ensures CooledDown(Exec(deliveries, runs)) && deliveries <= Exec(deliveries, runs)
    decreases |runs|
  {
    if runs == [] {
    } else {
      TimelyIsStillDue(deliveries, runs[0]);
      RunCoolsDownExactly(deliveries, runs[0]);
      CoolDownHolds(After(deliveries, runs[0]), runs[1..]);
    }
  }

  /** A run whose `now` is ahead of the clock breaks the cool-down: its deliveries
      are written before the time it counted from. */
  lemma AheadOfTheClock()
    ensures exists deliveries, now, stamp: int ::
              && CooledDown(deliveries) && stamp < now
              && Due(deliveries, {1}, now, 1) == {1}
              && !CooledDown(deliveries + Made([1], [stamp], 1))
  {
    var deliveries := [Delivery(1, 0, 1)];
    var now, stamp := 2 * DAY, 1;
    assert !Recent(deliveries, 1, now, 1);
    assert Due(deliveries, {1}, now, 1) == {1};
    var after := deliveries + Made([1], [stamp], 1);
    assert after[1] == Delivery(1, 1, 1) && after[0].user == after[1].user;
  }

  /** The first `k` deliveries of a run. */
  function MadeSoFar(due: seq<AccountId>, stamps: seq<int>, cooldown: nat, k: nat): seq<Delivery>
    requires |due| == |stamps| && k <= |due|
  {
    Made(due[..k], stamps[..k], cooldown)
  }

  lemma OneMoreMade(due: seq<AccountId>, stamps: seq<int>, cooldown: nat, k: nat)
    requires |due| == |stamps| && k < |due|
    ensures MadeSoFar(due, stamps, cooldown, k + 1) ==
            MadeSoFar(due, stamps, cooldown, k) + [Delivery(due[k], stamps[k], cooldown)]
  {
  }

  lemma AllMade(due: seq<AccountId>, stamps: seq<int>, cooldown: nat)
    requires |due| == |stamps|
    ensures MadeSoFar(due, stamps, cooldown, 0) == []
    ensures MadeSoFar(due, stamps, cooldown, |due|) == Made(due, stamps, cooldown)
  {
    assert due[..|due|] == due && stamps[..|due|] == stamps;
  }

  class Journey {
    var cooldownDays: nat
    var deliveries: seq<Delivery>

    constructor (cooldownDays: nat)
      ensures this.cooldownDays == cooldownDays && deliveries == []
    {
      this.cooldownDays, deliveries := cooldownDays, [];
    }

    /** Sends to everyone due when the run starts, in id order; `stamps` are the
        moments at which the deliveries are written. */
    method RunOne(audience: set<AccountId>, now: int, stamps: seq<int>) returns (sent: nat)
      requires |stamps| == |InOrder(Due(deliveries, audience, now, cooldownDays))|
      modifies this`deliveries
      ensures var due := InOrder(old(Due(deliveries, audience, now, cooldownDays)));
              && sent == |due|
              && deliveries == old(deliveries) + Made(due, stamps, cooldownDays)
    {
      var due := InOrder(Due(deliveries, audience, now, cooldownDays));
      sent := 0;
      AllMade(due, stamps, cooldownDays);
      while sent < |due|
        invariant 0 <= sent <= |due|
        invariant deliveries == old(deliveries) + MadeSoFar(due, stamps, cooldownDays, sent)
      {
        deliveries := deliveries + [Delivery(due[sent], stamps[sent], cooldownDays)];
        OneMoreMade(due, stamps, cooldownDays, sent);
        sent := sent + 1;
      }
    }
  }
}

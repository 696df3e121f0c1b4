/** The list of showing promotions and its time-dependent cache (content/cache.py,
    content/models.py). Times are microseconds, the resolution of the site's clock. */
module PromotionCache {
  import opened Basics

  const SECOND := 1_000_000
  const PROMOTION_TIMEOUT := 300

  datatype Promotion = Promotion(id: nat, startsAt: int, endsAt: Option<int>, eventStart: int, eventEnd: int, listed: bool)

  function EffectiveEnd(p: Promotion): int {
    if p.endsAt.Some? then p.endsAt.value else p.eventStart
  }

  /** The promotion's own view of whether it is on. */
  predicate IsShowing(p: Promotion, now: int) {
    p.startsAt <= now < EffectiveEnd(p) && now < p.eventEnd
  }

  /** The filters of the `showing` query, as it writes them. */
  predicate Matches(p: Promotion, now: int) {
    && p.startsAt <= now && p.eventEnd > now
    && ((p.endsAt.Some? && p.endsAt.value > now) || (p.endsAt == None && p.eventStart > now))
    && p.listed
  }

  /** `rows` is the placement's promotions in the order the query sorts them. */
  function Showing(rows: seq<Promotion>, now: int): seq<Promotion> {
    if rows == [] then []
    else (if Matches(rows[0], now) then [rows[0]] else []) + Showing(rows[1..], now)
  }

  /** The query shows exactly the listed promotions that say they are on. */
  lemma {:induction false} ShowingIsShowing(rows: seq<Promotion>, now: int, p: Promotion)
    ensures p in Showing(rows, now) <==> p in rows && p.listed && IsShowing(p, now)
  {
    if rows == [] {
    } else {
      ShowingIsShowing(rows[1..], now, p);
      assert rows == [rows[0]] + rows[1..];
    }
  }

  /** The places of the rows that show, in order. */
  function ShowingAt(rows: seq<Promotion>, now: int): (places: seq<nat>)
    ensures forall k :: 0 <= k < |places| ==> places[k] < |rows|
  {
    if rows == [] then []
    else
      var last := |rows| - 1;
      ShowingAt(rows[..last], now) + (if rows[last].listed && IsShowing(rows[last], now) then [last] else [])
  }

  lemma {:induction false} ShowingAppends(rows: seq<Promotion>, more: seq<Promotion>, now: int)
    ensures Showing(rows + more, now) == Showing(rows, now) + Showing(more, now)
  {
    if rows == [] {
      assert rows + more == more;
    } else {
      assert (rows + more)[0] == rows[0] && (rows + more)[1..] == rows[1..] + more;
      ShowingAppends(rows[1..], more, now);
    }
  }

  /** `shown` is the rows at these places, in order, each row that shows once. */
  ghost predicate InOrder(rows: seq<Promotion>, now: int, shown: seq<Promotion>, places: seq<nat>) {
    && |shown| == |places|
    && (forall k :: 0 <= k < |places| ==> places[k] < |rows| && shown[k] == rows[places[k]])
    && (forall k, m :: 0 <= k < m < |places| ==> places[k] < places[m])
    && forall i :: 0 <= i < |rows| ==> (i in places <==> rows[i].listed && IsShowing(rows[i], now))
  }

  lemma InOrderOneMore(rows: seq<Promotion>, last: Promotion, now: int, shown: seq<Promotion>, places: seq<nat>)
    requires InOrder(rows, now, shown, places) && last.listed && IsShowing(last, now)
    ensures InOrder(rows + [last], now, shown + [last], places + [|rows|])
  {
    assert forall k :: 0 <= k < |places| ==> places[k] in places;
  }

  lemma InOrderNoMore(rows: seq<Promotion>, last: Promotion, now: int, shown: seq<Promotion>, places: seq<nat>)
    requires InOrder(rows, now, shown, places) && !(last.listed && IsShowing(last, now))
    ensures InOrder(rows + [last], now, shown, places)
  {
    assert forall k :: 0 <= k < |places| ==> places[k] in places;
  }

  lemma ShowingOneMore(rows: seq<Promotion>, last: Promotion, now: int)
    ensures Showing(rows + [last], now) == Showing(rows, now) + (if last.listed && IsShowing(last, now) then [last] else [])
  {
    ShowingAppends(rows, [last], now);
    var none: seq<Promotion> := [];
    assert [last][1..] == none;
    assert Showing([last], now) == (if Matches(last, now) then [last] else []) + Showing(none, now);
  }

  lemma ShowingNext(before: seq<Promotion>, last: Promotion, now: int)
    requires InOrder(before, now, Showing(before, now), ShowingAt(before, now))
    ensures InOrder(before + [last], now, Showing(before + [last], now), ShowingAt(before + [last], now))
  {
    ShowingOneMore(before, last, now);
    assert (before + [last])[..|before|] == before;
    if last.listed && IsShowing(last, now) {
      InOrderOneMore(before, last, now, Showing(before, now), ShowingAt(before, now));
    } else {
      InOrderNoMore(before, last, now, Showing(before, now), ShowingAt(before, now));
    }
  }

  /** The list keeps the order of the rows, and has each row that shows once. */
  lemma {:induction false} ShowingInOrder(rows: seq<Promotion>, now: int)
    ensures InOrder(rows, now, Showing(rows, now), ShowingAt(rows, now))
  {
    if rows == [] {
    } else {
      ShowingInOrder(rows[..|rows| - 1], now);
      ShowingNext(rows[..|rows| - 1], rows[|rows| - 1], now);
      assert rows[..|rows| - 1] + [rows[|rows| - 1]] == rows;
    }
  }

  predicate IsMoment(p: Promotion, m: int) {
    m == p.startsAt || m == EffectiveEnd(p) || m == p.eventEnd
  }

  /** `m` is a moment after `now` of a row whose event has not finished. */
  ghost predicate IsFuture(rows: seq<Promotion>, now: int, m: int) {
    now < m && exists i :: 0 <= i < |rows| && now < rows[i].eventEnd && IsMoment(rows[i], m)
  }

  ghost predicate IsNextChange(rows: seq<Promotion>, now: int, change: Option<int>) {
    match change
    case None => forall m :: !IsFuture(rows, now, m)
    case Some(c) => IsFuture(rows, now, c) && forall m :: IsFuture(rows, now, m) ==> c <= m
  }

  function Sooner(now: int, m: int, change: Option<int>): Option<int> {
    if m <= now then change else if change == None || m < change.value then Some(m) else change
  }

  function NextChange(rows: seq<Promotion>, now: int): (change: Option<int>)
    ensures change.Some? ==> now < change.value
  {
    if rows == [] then None
    else
      var later := NextChange(rows[1..], now);
      if rows[0].eventEnd <= now then later
      else Sooner(now, rows[0].startsAt, Sooner(now, EffectiveEnd(rows[0]), Sooner(now, rows[0].eventEnd, later)))
  }

  lemma FutureSplits(rows: seq<Promotion>, now: int, m: int)
    requires rows != []
    ensures IsFuture(rows, now, m) <==>
            IsFuture(rows[1..], now, m) || (now < m && now < rows[0].eventEnd && IsMoment(rows[0], m))
  {
  }

  lemma {:induction false} NextChangeSpec(rows: seq<Promotion>, now: int)
    ensures IsNextChange(rows, now, NextChange(rows, now))
  {
    if rows == [] {
    } else {
      NextChangeSpec(rows[1..], now);
      forall m ensures IsFuture(rows, now, m) <==>
          IsFuture(rows[1..], now, m) || (now < m && now < rows[0].eventEnd && IsMoment(rows[0], m))
      {
        FutureSplits(rows, now, m);
      }
    }
  }

  /** There is only one next change. */
  lemma NextChangeUnique(rows: seq<Promotion>, now: int, change: Option<int>)
    requires IsNextChange(rows, now, change)
    ensures change == NextChange(rows, now)
  {
    NextChangeSpec(rows, now);
  }

  /** A row whose moments the clock does not pass shows or not as before. */
  lemma RowConstant(p: Promotion, now: int, t: int)
    requires now <= t
    requires now < p.eventEnd ==> forall m :: IsMoment(p, m) ==> m <= now || t < m
    ensures Matches(p, t) == Matches(p, now)
  {
    if now < p.eventEnd {
      assert IsMoment(p, p.startsAt) && IsMoment(p, EffectiveEnd(p)) && IsMoment(p, p.eventEnd);
    }
  }

  /** What a placement shows is constant up to, and not including, its next change. */
  lemma {:induction false} ConstantUntilChange(rows: seq<Promotion>, now: int, t: int)
    requires now <= t
    requires forall m :: IsFuture(rows, now, m) ==> t < m
    ensures Showing(rows, t) == Showing(rows, now)
  {
    if rows == [] {
    } else {
      forall m ensures IsFuture(rows[1..], now, m) ==> t < m {
        FutureSplits(rows, now, m);
      }
      ConstantUntilChange(rows[1..], now, t);
      forall m | now < rows[0].eventEnd && IsMoment(rows[0], m) ensures m <= now || t < m {
        FutureSplits(rows, now, m);
      }
      RowConstant(rows[0], now, t);
    }
  }

  /** How many seconds a list built at `now` is kept. */
  function Seconds(now: int, change: Option<int>): int
    requires change.Some? ==> now < change.value
  {
    match change
    case None => PROMOTION_TIMEOUT
    case Some(c) =>
      var left := (c - now) / SECOND + 1;
      var capped := if left < PROMOTION_TIMEOUT then left else PROMOTION_TIMEOUT;
      if 1 < capped then capped else 1
  }

  /** The list is kept between one second and five minutes, never past a second
      after the change; and it outlives the change exactly when the change is less
      than five minutes away. */
  lemma SecondsSpec(now: int, change: Option<int>)
    requires change.Some? ==> now < change.value
    ensures 1 <= Seconds(now, change) <= 300
    ensures change == None ==> Seconds(now, change) == 300
    ensures change.Some? ==> now + Seconds(now, change) * 1_000_000 <= change.value + 1_000_000
    ensures change.Some? ==>
              (change.value < now + Seconds(now, change) * 1_000_000 <==> change.value - now < 300 * 1_000_000)
    ensures change.Some? && 300 * 1_000_000 <= change.value - now ==> Seconds(now, change) == 300
  {
  }

  // ------------------------------------------------------------ over a run

  /** `builtAt` is what the proofs remember of a cached list. */
  datatype Entry = Entry(value: seq<Promotion>, expires: int, builtAt: int)

  function Built(rows: seq<Promotion>, now: int): Entry {
    Entry(Showing(rows, now), now + Seconds(now, NextChange(rows, now)) * SECOND, now)
  }

  /** A read: the cached list while it lives, else a new one. */
  function Lookup(entry: Option<Entry>, rows: seq<Promotion>, now: int): Entry {
    if entry.Some? && now < entry.value.expires then entry.value else Built(rows, now)
  }

  datatype State = State(clock: int, rows: seq<Promotion>, entry: Option<Entry>)

  /** Reads are atomic; a row change (a promotion, its event or its dojo) clears
      the key; the cache may also drop the key by itself. */
  datatype Step = Read | Change(rows: seq<Promotion>) | Tick(length: nat) | Evict

  function Apply(s: State, step: Step): State {
    match step
    case Read => s.(entry := Some(Lookup(s.entry, s.rows, s.clock)))
    case Change(rows) => s.(rows := rows, entry := None)
    case Tick(length) => s.(clock := s.clock + length)
    case Evict => s.(entry := None)
  }

  function Exec(s: State, steps: seq<Step>): State
    decreases |steps|
  {
    if steps == [] then s else Apply(Exec(s, steps[..|steps| - 1]), steps[|steps| - 1])
  }

  ghost predicate Fresh(s: State) {
    s.entry.Some? ==> s.entry.value.builtAt <= s.clock && s.entry.value == Built(s.rows, s.entry.value.builtAt)
  }

  lemma {:induction false} StaysFresh(s: State, steps: seq<Step>)
    requires Fresh(s)
    ensures Fresh(Exec(s, steps))
    decreases |steps|
  {
    if steps == [] {
    } else {
      StaysFresh(s, steps[..|steps| - 1]);
    }
  }

  /** In every run a read returns what shows at that instant, except within the
      second after a promotion started or ended, or its event did. */
  lemma ReadIsRight(s: State, steps: seq<Step>)
    requires Fresh(s)
    ensures var t := Exec(s, steps);
            var value := Lookup(t.entry, t.rows, t.clock).value;
            || value == Showing(t.rows, t.clock)
            || exists i, m :: 0 <= i < |t.rows| && IsMoment(t.rows[i], m) && m <= t.clock < m + 1_000_000
  {
    StaysFresh(s, steps);
    var t := Exec(s, steps);
    if t.entry.Some? && t.clock < t.entry.value.expires {
      var b := t.entry.value.builtAt;
      var change := NextChange(t.rows, b);
      NextChangeSpec(t.rows, b);
      SecondsSpec(b, change);
      if change.Some? && change.value <= t.clock {
        var i :| 0 <= i < |t.rows| && b < t.rows[i].eventEnd && IsMoment(t.rows[i], change.value);
        assert IsMoment(t.rows[i], change.value) && change.value <= t.clock < change.value + SECOND;
      } else {
        ConstantUntilChange(t.rows, b, t.clock);
      }
    }
  }

  /** A change of the rows shows at once, whatever was cached; and until then or its
      timeout a read is what was built, however the clock goes. */
  lemma ChangeShows(s: State, rows: seq<Promotion>, length: nat)
    ensures var t := Apply(s, Change(rows));
            && t.rows == rows && t.clock == s.clock
            && Apply(t, Read).entry == Some(Built(rows, s.clock)) && Built(rows, s.clock).value == Showing(rows, s.clock)
    ensures var r := Apply(s, Read);
            var t := Apply(r, Tick(length));
            && r.entry.Some? && t.clock == s.clock + length
            && (t.clock < r.entry.value.expires ==> Apply(t, Read).entry == r.entry)
            && (r.entry.value.expires <= t.clock ==> Apply(t, Read).entry == Some(Built(s.rows, t.clock)))
  {
  }

  // -------------------------------------------- exactly when a read is wrong

  predicate On(p: Promotion, t: int) {
    p.listed && IsShowing(p, t)
  }

  /** When the promotion stops showing. */
  function Over(p: Promotion): int {
    if EffectiveEnd(p) < p.eventEnd then EffectiveEnd(p) else p.eventEnd
  }

  /** Between `a` and `b` a listed promotion that ever shows started or stopped, and not
      both. */
  predicate Turns(p: Promotion, a: int, b: int) {
    p.listed && p.startsAt < Over(p) && ((a < p.startsAt <= b) != (a < Over(p) <= b))
  }

  lemma TurnsExactly(p: Promotion, a: int, b: int)
    requires a <= b
    ensures Turns(p, a, b) <==> On(p, a) != On(p, b)
  {
  }

  lemma {:induction false} SameRowsOn(rows: seq<Promotion>, a: int, b: int)
    requires forall i :: 0 <= i < |rows| ==> On(rows[i], a) == On(rows[i], b)
    ensures Showing(rows, a) == Showing(rows, b)
  {
    if rows == [] {
    } else {
      assert On(rows[0], a) == On(rows[0], b);
      SameRowsOn(rows[1..], a, b);
    }
  }

  /** A placement shows the same at two moments exactly when no row of it turned. */
  lemma {:induction false} ShowsTheSame(rows: seq<Promotion>, a: int, b: int)
    requires a <= b
    ensures Showing(rows, a) == Showing(rows, b) <==> forall i :: 0 <= i < |rows| ==> !Turns(rows[i], a, b)
  {
    forall i | 0 <= i < |rows| ensures Turns(rows[i], a, b) <==> On(rows[i], a) != On(rows[i], b) {
      TurnsExactly(rows[i], a, b);
    }
    if Showing(rows, a) == Showing(rows, b) {
      forall i | 0 <= i < |rows| ensures On(rows[i], a) == On(rows[i], b) {
        ShowingIsShowing(rows, a, rows[i]);
        ShowingIsShowing(rows, b, rows[i]);
      }
    } else if forall i :: 0 <= i < |rows| ==> !Turns(rows[i], a, b) {
      SameRowsOn(rows, a, b);
    }
  }

  /** In every run a read is wrong exactly when it finds a list that still lives and
      some listed promotion started or stopped, and not both, since that was built. */
  lemma {:induction false} ReadIsWrongExactly(s: State, steps: seq<Step>)
    requires Fresh(s)
    ensures var t := Exec(s, steps);
            Lookup(t.entry, t.rows, t.clock).value != Showing(t.rows, t.clock) <==>
            && t.entry.Some? && t.clock < t.entry.value.expires
            && exists i :: 0 <= i < |t.rows| && Turns(t.rows[i], t.entry.value.builtAt, t.clock)
  {
    StaysFresh(s, steps);
    var t := Exec(s, steps);
    if t.entry.Some? { ShowsTheSame(t.rows, t.entry.value.builtAt, t.clock); }
  }

  /** That second is real: at the very moment a promotion ends, a list cached half
      a second before still shows it. */
  lemma StaleForASecond()
    ensures exists s, steps ::
              && Fresh(s) && s.entry == None
              && var t := Exec(s, steps);
                 Lookup(t.entry, t.rows, t.clock).value != Showing(t.rows, t.clock)
  {
    var p := Promotion(1, 0, Some(500_000), 900_000, 2_000_000, true);
    var s := State(0, [p], None);
    var none: seq<Step> := [];
    var one := [Read];
    var steps := [Read, Tick(500_000)];
    assert one[..0] == none && steps[..1] == one;
    assert Exec(s, none) == s;
    assert Exec(s, one) == s.(entry := Some(Built([p], 0)));
    assert NextChange([p], 0) == Some(500_000);
    var empty: seq<Promotion> := [];
    assert Matches(p, 0) && !Matches(p, 500_000);
    assert Showing(empty, 0) == empty && Showing(empty, 500_000) == empty;
    assert [p][1..] == empty && Showing([p], 0) == [p] && Showing([p], 500_000) == empty;
    assert Exec(s, steps) == State(500_000, [p], Some(Built([p], 0)));
  }

  // ------------------------------------------------------------ the functions

  /** `_next_change`: collects the moments of the unfinished rows, then takes the
      least one still to come. */
  method FindNextChange(rows: seq<Promotion>, now: int) returns (change: Option<int>)
    ensures change == NextChange(rows, now)
  {
    var moments: seq<int> := [];
    var i := 0;
    while i < |rows|
      invariant 0 <= i <= |rows|
      invariant forall m :: m in moments ==> exists k :: 0 <= k < i && now < rows[k].eventEnd && IsMoment(rows[k], m)
      invariant forall k, m :: 0 <= k < i && now < rows[k].eventEnd && IsMoment(rows[k], m) ==> m in moments
    {
      if now < rows[i].eventEnd {
        var three := [rows[i].startsAt, EffectiveEnd(rows[i]), rows[i].eventEnd];
        assert forall m :: m in three <==> IsMoment(rows[i], m);
        ghost var was := moments;
        moments := moments + three;
        assert forall m :: m in moments <==> m in was || m in three;
      }
      i := i + 1;
    }
    change := None;
    i := 0;
    while i < |moments|
      invariant 0 <= i <= |moments|
      invariant change == None ==> forall k :: 0 <= k < i ==> moments[k] <= now
      invariant change.Some? ==> change.value in moments && now < change.value
      invariant change.Some? ==> forall k :: 0 <= k < i && now < moments[k] ==> change.value <= moments[k]
    {
      if now < moments[i] && (change == None || moments[i] < change.value) {
        change := Some(moments[i]);
      }
      i := i + 1;
    }
    forall m ensures IsFuture(rows, now, m) <==> now < m && m in moments {
    }
    NextChangeUnique(rows, now, change);
  }

  class SiteCache {
    var entry: Option<Entry>

    constructor ()
      ensures entry == None
    {
      entry := None;
    }

    method PromotionsShowing(rows: seq<Promotion>, now: int) returns (showing: seq<Promotion>)
      modifies this
      ensures entry == Some(Lookup(old(entry), rows, now))
      ensures showing == entry.value.value
    {
      if entry.Some? && now < entry.value.expires {
        return entry.value.value;
      }
      showing := Showing(rows, now);
      var change := FindNextChange(rows, now);
      entry := Some(Entry(showing, now + Seconds(now, change) * SECOND, now));
    }

    method Clear()
      modifies this
      ensures entry == None
    {
      entry := None;
    }
  }
}

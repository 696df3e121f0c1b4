/** Removals of a child's guardians that overlap (accounts/guardian_invitations.py,
    `remove`). A removal locks the link it removes and no other, checks, and deletes
    when its transaction commits; the check of another removal does not see what has
    not been committed. */
module GuardianRemovals {
  import opened Basics
  import opened Guardians

  /** `passed` are the links whose removal passed the check and has not committed. */
  datatype Removing = Removing(child: Guardians.State, passed: set<nat>)

  datatype Move =
    | Check(l: nat, by': UserId)
    | Commit(l: nat)
    | Rollback(l: nat)
    | Else(step: Guardians.Step)

  predicate May(r: Removing, move: Move) {
    match move
    case Check(l, by') => l in r.child.links && l !in r.passed && RemovalProblem(r.child, l, by') == None
    case Commit(l) => l in r.passed && l in r.child.links
    case Rollback(l) => l in r.passed
    case Else(step) => !step.DoRemove? && Guardians.Enabled(r.child, step)
  }

  function Do(r: Removing, move: Move): Removing
    requires May(r, move)
  {
    match move
    case Check(l, _) => r.(passed := r.passed + {l})
    case Commit(l) => Removing(r.child.(links := r.child.links - {l}), r.passed - {l})
    case Rollback(l) => r.(passed := r.passed - {l})
    case Else(step) => r.(child := Guardians.Apply(r.child, step))
  }

  /** A removal that nothing overlaps is the atomic one. */
  lemma AloneIsAtomic(r: Removing, l: nat, by': UserId)
    requires r.passed == {} && l in r.child.links
    ensures May(r, Check(l, by')) <==> Remove(r.child, l, by').Ok?
    ensures May(r, Check(l, by')) ==>
              var checked := Do(r, Check(l, by'));
              May(checked, Commit(l)) && Do(checked, Commit(l)) == Removing(Remove(r.child, l, by').state, {})
  {
  }

  /** A removal that is rolled back leaves nothing behind. */
  lemma UndoneIsNothing(r: Removing, l: nat, by': UserId)
    requires May(r, Check(l, by'))
    ensures var checked := Do(r, Check(l, by')); May(checked, Rollback(l)) && Do(checked, Rollback(l)) == r
  {
    assert r.passed + {l} - {l} == r.passed;
  }

  /** A parent or legal guardian whose removal is not under way. */
  ghost predicate Stays(r: Removing, l: nat) {
    l in r.child.links && l !in r.passed && Responsible(r.child.links[l].relation)
  }

  ghost predicate Safe(r: Removing) {
    exists l :: Stays(r, l)
  }

  /** The check passes for the last parent or legal guardian whose removal is not under
      way: it counts others who are about to go. */
  ghost predicate PassesLast(r: Removing, move: Move) {
    move.Check? && Stays(r, move.l) && forall m :: Stays(r, m) ==> m == move.l
  }

  lemma SafeElse(r: Removing, move: Move)
    requires Numbered(r.child) && Safe(r) && May(r, move) && move.Else?
    ensures Safe(Do(r, move))
  {
    var l :| Stays(r, l);
    assert l in Guardians.Apply(r.child, move.step).links;
    assert Stays(Do(r, move), l);
  }

  /** From a state with such a guardian, a move leaves none exactly then. */
  lemma SafeExactly(r: Removing, move: Move)
    requires Numbered(r.child) && Safe(r) && May(r, move)
    ensures Safe(Do(r, move)) <==> !PassesLast(r, move)
  {
    var l :| Stays(r, l);
    var t := Do(r, move);
    match move {
      case Check(c, _) =>
        if PassesLast(r, move) {
          assert forall m :: Stays(t, m) ==> Stays(r, m) && m != c;
        } else {
          var m :| Stays(r, m) && m != c;
          assert Stays(t, m);
        }
      case Commit(_) => assert Stays(t, l);
      case Rollback(_) => assert Stays(t, l);
      case Else(_) => SafeElse(r, move);
    }
  }

  /** The removal that commits is that of the last parent or legal guardian there is. */
  ghost predicate CommitsLast(r: Removing, move: Move) {
    && move.Commit? && move.l in r.child.links
    && forall m :: m in r.child.links && Responsible(r.child.links[m].relation) ==> m == move.l
  }

  lemma KeptElse(r: Removing, move: Move)
    requires Numbered(r.child) && Kept(r.child) && May(r, move) && move.Else?
    ensures Kept(Do(r, move).child)
  {
    var l :| l in r.child.links && Responsible(r.child.links[l].relation);
    assert l in Guardians.Apply(r.child, move.step).links;
  }

  /** The child is left without one exactly then, and never while one stays. */
  lemma LeftWithoutExactly(r: Removing, move: Move)
    requires Numbered(r.child) && Kept(r.child) && May(r, move)
    ensures Kept(Do(r, move).child) <==> !CommitsLast(r, move)
    ensures CommitsLast(r, move) ==> !Safe(r)
  {
    var t := Do(r, move).child;
    match move {
      case Commit(c) =>
        if !CommitsLast(r, move) {
          var m :| m in r.child.links && Responsible(r.child.links[m].relation) && m != c;
          assert m in t.links;
        }
      case Else(_) => KeptElse(r, move);
      case _ => assert t == r.child;
    }
  }

  ghost predicate Run(states: seq<Removing>, moves: seq<Move>) {
    && |states| == |moves| + 1
    && forall k :: 0 <= k < |moves| ==> May(states[k], moves[k]) && states[k + 1] == Do(states[k], moves[k])
  }

  lemma NumberedStays(r: Removing, move: Move)
    requires Numbered(r.child) && May(r, move)
    ensures Numbered(Do(r, move).child)
  {
    if move.Else? { NumbersKept(r.child, move.step); }
  }

  lemma {:induction false} NumberedAlong(states: seq<Removing>, moves: seq<Move>, m: nat)
    requires Run(states, moves) && Numbered(states[0].child) && m <= |moves|
    ensures Numbered(states[m].child)
  {
    if m == 0 {
    } else {
      NumberedAlong(states, moves, m - 1);
      NumberedStays(states[m - 1], moves[m - 1]);
    }
  }

  lemma {:induction false} SafeUpTo(states: seq<Removing>, moves: seq<Move>, m: nat)
    requires Run(states, moves) && Numbered(states[0].child) && Safe(states[0]) && m <= |moves|
    requires forall k :: 0 <= k < m ==> !PassesLast(states[k], moves[k])
    ensures Safe(states[m])
  {
    if m == 0 {
    } else {
      SafeUpTo(states, moves, m - 1);
      NumberedAlong(states, moves, m - 1);
      SafeExactly(states[m - 1], moves[m - 1]);
    }
  }

  /** Over every run of overlapping removals: there is always a parent or legal guardian
      whose removal is not under way, and so the child always keeps one, if and only if
      no check passes for the last of them. */
  lemma {:induction false} RemovalsAreSafe(states: seq<Removing>, moves: seq<Move>)
    requires Run(states, moves) && Numbered(states[0].child) && Safe(states[0])
    ensures (forall m :: 0 <= m <= |moves| ==> Safe(states[m])) <==>
            (forall k :: 0 <= k < |moves| ==> !PassesLast(states[k], moves[k]))
    ensures (forall k :: 0 <= k < |moves| ==> !PassesLast(states[k], moves[k])) ==>
              forall m :: 0 <= m <= |moves| ==> Kept(states[m].child)
  {
    if forall m :: 0 <= m <= |moves| ==> Safe(states[m]) {
      forall k | 0 <= k < |moves| ensures !PassesLast(states[k], moves[k]) {
        NumberedAlong(states, moves, k);
        assert Safe(states[k + 1]);
        SafeExactly(states[k], moves[k]);
      }
    }
    if forall k :: 0 <= k < |moves| ==> !PassesLast(states[k], moves[k]) {
      forall m | 0 <= m <= |moves| ensures Safe(states[m]) && Kept(states[m].child) {
        SafeUpTo(states, moves, m);
        var l :| Stays(states[m], l);
      }
    }
  }

  // ---------------------------------------------------------------- the run

  function TwoParents(): Guardians.State {
    OneParent().(links := map[0 := Link(0, Parent), 1 := Link(1, Parent)], nextLink := 2)
  }

  /** Two parents step down at the same moment; each check counts the other. */
  lemma BothStepDown()
    ensures exists states: seq<Removing>, moves: seq<Move> ::
              && Run(states, moves) && Inv(states[0].child) && states[0].passed == {}
              && states[|moves|].child.links == map[]
  {
    var s := TwoParents();
    assert s.links[0] == Link(0, Parent) && s.links[1] == Link(1, Parent);
    var r0, r1, r2 := Removing(s, {}), Removing(s, {0}), Removing(s, {0, 1});
    var r3 := Removing(s.(links := map[1 := Link(1, Parent)]), {1});
    var r4 := Removing(s.(links := map[]), {});
    BothPass(r0, r1, r2);
    BothGo(r2, r3, r4);
    var states, moves := [r0, r1, r2, r3, r4], [Check(0, 0), Check(1, 1), Commit(0), Commit(1)];
    assert Run(states, moves);
    assert Inv(s);
  }

  lemma BothPass(r0: Removing, r1: Removing, r2: Removing)
    requires r0 == Removing(TwoParents(), {}) && r1 == r0.(passed := {0}) && r2 == r0.(passed := {0, 1})
    ensures May(r0, Check(0, 0)) && Do(r0, Check(0, 0)) == r1
    ensures May(r1, Check(1, 1)) && Do(r1, Check(1, 1)) == r2
  {
    var s := TwoParents();
    assert 0 in s.links && 1 in s.links && Responsible(s.links[0].relation) && Responsible(s.links[1].relation);
  }

  lemma BothGo(r2: Removing, r3: Removing, r4: Removing)
    requires r2 == Removing(TwoParents(), {0, 1})
    requires r3 == Removing(TwoParents().(links := map[1 := Link(1, Parent)]), {1})
    requires r4 == Removing(TwoParents().(links := map[]), {})
    ensures May(r2, Commit(0)) && Do(r2, Commit(0)) == r3
    ensures May(r3, Commit(1)) && Do(r3, Commit(1)) == r4
  {
  }
}

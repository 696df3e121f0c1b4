/** What several modules share. */
module Basics {
  datatype Option<T> = None | Some(value: T)

  lemma Fewer<T>(a: set<T>, b: set<T>)
    requires a <= b
    ensures |a| <= |b|
  {
    assert b == a + (b - a);
  }

  lemma {:induction false} LeastExists(numbers: set<nat>)
    requires numbers != {}
    ensures exists m :: m in numbers && forall n :: n in numbers ==> m <= n
  {
    var some :| some in numbers;
    if numbers == {some} {
    } else {
      var rest := numbers - {some};
      LeastExists(rest);
      var m :| m in rest && forall n :: n in rest ==> m <= n;
      var least := if m < some then m else some;
      assert forall n :: n in numbers ==> n == some || n in rest;
      assert least in numbers && forall n :: n in numbers ==> least <= n;
    }
  }

  ghost predicate Above(bound: nat, numbers: set<nat>) {
    forall n :: n in numbers ==> n < bound
  }

  lemma {:induction false} BoundExists(numbers: set<nat>)
    ensures exists bound :: Above(bound, numbers)
  {
    if numbers == {} {
      assert Above(0, numbers);
    } else {
      var m :| m in numbers;
      BoundExists(numbers - {m});
      var bound :| Above(bound, numbers - {m});
      assert forall n :: n in numbers ==> n == m || n in numbers - {m};
      assert Above(if m < bound then bound else m + 1, numbers);
    }
  }

  lemma OutsideExists(numbers: set<nat>)
    ensures exists n: nat :: n !in numbers
  {
    BoundExists(numbers);
    var bound :| Above(bound, numbers);
    assert bound !in numbers;
  }
}

/** Account ids in id order: the part of the query set interface that queuing a
    campaign relies on (`filter(pk__gt=cursor).order_by("pk")[:size]`). */
module Audience {
  import opened Basics

  /** Account ids start at 1; a cursor of 0 means that nothing is queued yet. */
  type AccountId = n: nat | 0 < n witness 1

  function After(accounts: set<AccountId>, cursor: nat): set<AccountId> {
    set u | u in accounts && cursor < u
  }

  function Least(accounts: set<AccountId>): (m: AccountId)
    requires accounts != {}
    ensures m in accounts && forall u :: u in accounts ==> m <= u
  {
    LeastExists(accounts);
    var m :| m in accounts && forall u :: u in accounts ==> m <= u;
    m
  }

  ghost predicate Ascending(s: seq<AccountId>) {
    forall i, j :: 0 <= i < j < |s| ==> s[i] < s[j]
  }

  /** The accounts in id order, each exactly once. */
  function InOrder(accounts: set<AccountId>): (s: seq<AccountId>)
    ensures Ascending(s)
    ensures forall u :: u in s <==> u in accounts
    decreases |accounts|
  {
    if accounts == {} then []
    else
      var first := Least(accounts);
      [first] + InOrder(accounts - {first})
  }

  function Min(a: nat, b: nat): nat {
    if a < b then a else b
  }

  /** At most `size` accounts after `cursor`, in id order. */
  function Slice(accounts: set<AccountId>, cursor: nat, size: nat): (s: seq<AccountId>)
    ensures |s| <= size
    ensures Ascending(s)
    ensures forall u :: u in s ==> u in accounts && cursor < u
  {
    var all := InOrder(After(accounts, cursor));
    var s := all[..Min(size, |all|)];
    assert forall u :: u in s ==> u in all;
    s
  }

  /** Where a slice stops: its last account, or the cursor it started from. */
  function EndOf(slice: seq<AccountId>, cursor: nat): nat {
    if slice == [] then cursor else slice[|slice| - 1]
  }

  /** A slice leaves out no account up to where it stops, and none at all when
      it is shorter than asked for. */
  lemma SliceIsComplete(accounts: set<AccountId>, cursor: nat, size: nat, u: AccountId)
    requires u in accounts && cursor < u
    requires u <= EndOf(Slice(accounts, cursor, size), cursor) || |Slice(accounts, cursor, size)| < size
    ensures u in Slice(accounts, cursor, size)
  {
    var all := InOrder(After(accounts, cursor));
    assert u in all;
  }

  /** Two ascending sequences with the same elements are the same sequence. */
  lemma {:induction false} AscendingIsUnique(s: seq<AccountId>, t: seq<AccountId>)
    requires Ascending(s) && Ascending(t)
    requires forall u :: u in s <==> u in t
    ensures s == t
  {
    if s == [] {
      assert forall i :: 0 <= i < |t| ==> t[i] in s;
    } else {
      assert s[0] in t;
      assert t[0] in s;
      assert s[0] == t[0];
      forall u ensures u in s[1..] <==> u in t[1..] {
        if u in s[1..] {
          assert u in t;
          assert u != s[0];
        }
        if u in t[1..] {
          assert u in s;
          assert u != t[0];
        }
      }
      AscendingIsUnique(s[1..], t[1..]);
    }
  }

  lemma TailIsTheRest(accounts: set<AccountId>, cursor: nat, all: seq<AccountId>, k: nat)
    requires Ascending(all) && k <= |all|
    requires forall u: AccountId :: u in all <==> u in accounts && cursor < u
    ensures forall u: AccountId :: u in all[k..] <==> u in accounts && EndOf(all[..k], cursor) < u
  {
    var end := EndOf(all[..k], cursor);
    assert k > 0 ==> end == all[k - 1];
    forall i | 0 <= i < |all| ensures cursor < all[i] {
      assert all[i] in all;
    }
    forall u: AccountId ensures u in all[k..] <==> u in accounts && end < u {
      if u in all[k..] {
        var i :| 0 <= i < |all[k..]| && all[k..][i] == u;
        assert all[k + i] == u;
        assert u in all;
      }
    }
  }

  /** What comes after a cursor is its next slice followed by what comes after
      the end of that slice. */
  lemma SliceThenRest(accounts: set<AccountId>, cursor: nat, size: nat)
    ensures var slice := Slice(accounts, cursor, size);
            InOrder(After(accounts, cursor)) == slice + InOrder(After(accounts, EndOf(slice, cursor)))
  {
    var all := InOrder(After(accounts, cursor));
    var slice := Slice(accounts, cursor, size);
    var tail := all[|slice|..];
    assert slice == all[..|slice|];
    assert all == slice + tail;
    TailIsTheRest(accounts, cursor, all, |slice|);
    var rest := InOrder(After(accounts, EndOf(slice, cursor)));
    forall u: AccountId ensures u in tail <==> u in rest {
      assert u in rest <==> u in After(accounts, EndOf(slice, cursor));
    }
    AscendingIsUnique(tail, rest);
  }
}

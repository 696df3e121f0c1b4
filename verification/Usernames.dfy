/** The first free username: `base`, `base2`, `base3`, ... (accounts/provisioning.py). */
module Usernames {
  import opened Basics

  const DIGITS := "0123456789"

  function Decimal(n: nat): (s: string)
    ensures s != []
  {
    if n < 10 then [DIGITS[n]] else Decimal(n / 10) + [DIGITS[n % 10]]
  }

  lemma {:induction false} DecimalIsInjective(m: nat, n: nat)
    requires Decimal(m) == Decimal(n)
    ensures m == n
  {
    var s, t := Decimal(m), Decimal(n);
    assert s[|s| - 1] == DIGITS[m % 10] && t[|t| - 1] == DIGITS[n % 10];
    assert m % 10 == n % 10;
    if m < 10 || n < 10 {
    } else {
      assert Decimal(m / 10) == s[..|s| - 1] && Decimal(n / 10) == t[..|t| - 1];
      DecimalIsInjective(m / 10, n / 10);
    }
  }

  /** The number that a text of digits reads as. */
  function Value(s: string): int {
    if s == "" then 0 else 10 * Value(s[..|s| - 1]) + (s[|s| - 1] as int - '0' as int)
  }

  /** A decimal reads as its number, in digits, and does not begin with a zero unless it
      is one. */
  lemma {:induction false} DecimalReads(n: nat)
    ensures Value(Decimal(n)) == n
    ensures forall i :: 0 <= i < |Decimal(n)| ==> '0' <= Decimal(n)[i] <= '9'
    ensures Decimal(n)[0] == '0' ==> n == 0
    decreases n
  {
    if n < 10 {
      assert Decimal(n)[..0] == "";
    } else {
      DecimalReads(n / 10);
      assert Decimal(n)[..|Decimal(n)| - 1] == Decimal(n / 10);
    }
  }

  /** The n-th name tried. */
  function Candidate(base: string, n: nat): string {
    if n <= 1 then base else base + Decimal(n)
  }

  lemma CandidatesDiffer(base: string, m: nat, n: nat)
    requires 1 <= m < n
    ensures Candidate(base, m) != Candidate(base, n)
  {
    if m == 1 {
      assert |Candidate(base, n)| > |base|;
    } else if Candidate(base, m) == Candidate(base, n) {
      assert Candidate(base, m)[|base|..] == Decimal(m) && Candidate(base, n)[|base|..] == Decimal(n);
      DecimalIsInjective(m, n);
    }
  }

  /** Ends whatever names are taken, with a free name, the first one in the sequence. */
  method UniqueUsername(wish: string, taken: set<string>) returns (username: string)
    ensures username !in taken
    ensures var base := if wish == "" then "user" else wish;
            exists n :: 1 <= n && username == Candidate(base, n) && forall m :: 1 <= m < n ==> Candidate(base, m) in taken
  {
    var base := if wish == "" then "user" else wish;
    username := base;
    var n: nat := 1;
    ghost var tried: set<string> := {};
    while username in taken
      invariant 1 <= n && username == Candidate(base, n)
      invariant tried <= taken && |tried| == n - 1
      invariant forall name :: name in tried <==> exists m :: 1 <= m < n && name == Candidate(base, m)
      decreases |taken| - |tried|
    {
      forall m | 1 <= m < n ensures Candidate(base, m) != username {
        CandidatesDiffer(base, m, n);
      }
      ghost var before := tried;
      tried := tried + {username};
      Fewer(tried, taken);
      forall name ensures name in tried <==> exists m :: 1 <= m < n + 1 && name == Candidate(base, m) {
        if name in before {
          var m :| 1 <= m < n && name == Candidate(base, m);
          assert 1 <= m < n + 1;
        }
      }
      n := n + 1;
      username := base + Decimal(n);
    }
    forall m | 1 <= m < n ensures Candidate(base, m) in taken {
      assert Candidate(base, m) in tried;
    }
  }
}

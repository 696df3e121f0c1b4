/** A campaign's mail rows and the idempotent `send` that fills them
    (campaigns/services.py and mailing/services.py). */
module CampaignMail {
  import opened Audience

  datatype Status = Draft | Queued | Sending | Completed | Cancelled

  /** The states of a mail row; `Claimed` is the row's own "sending" state, so
      that it is not confused with the campaign's. */
  datatype Delivery = Pending | Claimed | Sent | Failed | Bounced | Suppressed

  datatype Mail = Mail(account: AccountId, state: Delivery, isTest: bool)

  predicate Open(mail: Mail) {
    mail.state == Pending || mail.state == Claimed
  }

  /** The places of the campaign's own mails that wait to go out, and of those that
      wait or are being sent. */
  function Waiting(mails: seq<Mail>): set<nat> {
    set i | 0 <= i < |mails| && !mails[i].isTest && mails[i].state == Pending
  }

  function StillOpen(mails: seq<Mail>): set<nat> {
    set i | 0 <= i < |mails| && !mails[i].isTest && Open(mails[i])
  }

  /** Who has a mail of this campaign: the used idempotency keys. A test mail
      carries no key. */
  function Recipients(mails: seq<Mail>): set<AccountId> {
    set i | 0 <= i < |mails| && !mails[i].isTest :: mails[i].account
  }

  /** No account has two rows under its key. */
  ghost predicate KeysUnique(mails: seq<Mail>) {
    forall i, j :: 0 <= i < j < |mails| && !mails[i].isTest && !mails[j].isTest ==>
      mails[i].account != mails[j].account
  }

  function Fresh(u: AccountId, blocked: bool): Mail {
    Mail(u, if blocked then Suppressed else Pending, false)
  }

  /** One `send` under the account's key: a second one changes nothing. */
  function SendTo(mails: seq<Mail>, u: AccountId, blocked: bool): seq<Mail> {
    if u in Recipients(mails) then mails else mails + [Fresh(u, blocked)]
  }

  /** One pass over the accounts, sending to each. */
  function SinglePass(mails: seq<Mail>, accounts: seq<AccountId>, blocked: set<AccountId>): seq<Mail>
    decreases |accounts|
  {
    if accounts == [] then mails
    else SinglePass(SendTo(mails, accounts[0], accounts[0] in blocked), accounts[1..], blocked)
  }

  function Members(accounts: seq<AccountId>): set<AccountId> {
    set u | u in accounts
  }

  /** What a cancel does to the rows that have not gone out yet. */
  function Withdrawn(mail: Mail): Mail {
    if mail.state == Pending then mail.(state := Suppressed) else mail
  }

  function Withdraw(mails: seq<Mail>): (w: seq<Mail>)
    ensures |w| == |mails|
    ensures forall i :: 0 <= i < |mails| ==> w[i] == Withdrawn(mails[i])
  {
    seq(|mails|, i requires 0 <= i < |mails| => Withdrawn(mails[i]))
  }

  lemma WithdrawKeepsRecipients(mails: seq<Mail>)
    ensures Recipients(Withdraw(mails)) == Recipients(mails)
    ensures KeysUnique(mails) ==> KeysUnique(Withdraw(mails))
    ensures forall i :: 0 <= i < |mails| ==>
              Withdraw(mails)[i] == mails[i].(state := if mails[i].state == Pending then Suppressed else mails[i].state)
  {
  }

  /** Adding a row adds its recipient, and nobody for a test mail. */
  lemma AppendRecipients(mails: seq<Mail>, mail: Mail)
    ensures Recipients(mails + [mail]) == Recipients(mails) + (if mail.isTest then {} else {mail.account})
  {
    var more := mails + [mail];
    forall u ensures u in Recipients(more) <==> u in Recipients(mails) || (!mail.isTest && u == mail.account) {
      if u in Recipients(mails) {
        var i :| 0 <= i < |mails| && !mails[i].isTest && mails[i].account == u;
        assert !more[i].isTest && more[i].account == u;
      }
      if !mail.isTest && u == mail.account {
        assert !more[|mails|].isTest && more[|mails|].account == u;
      }
    }
  }

  /** `send` gives the account its mail, keeps every earlier row where it was
      and never makes a second row for an account. */
  lemma SendToSpec(mails: seq<Mail>, u: AccountId, blocked: bool)
    ensures Recipients(SendTo(mails, u, blocked)) == Recipients(mails) + {u}
    ensures mails <= SendTo(mails, u, blocked)
    ensures KeysUnique(mails) ==> KeysUnique(SendTo(mails, u, blocked))
    ensures SendTo(SendTo(mails, u, blocked), u, !blocked) == SendTo(mails, u, blocked)
    ensures u !in Recipients(mails) ==>
              SendTo(mails, u, blocked) == mails + [Mail(u, if blocked then Suppressed else Pending, false)]
  {
    if u !in Recipients(mails) {
      AppendRecipients(mails, Fresh(u, blocked));
    }
  }

  lemma {:induction false} PassAppends(mails: seq<Mail>, s: seq<AccountId>, t: seq<AccountId>, blocked: set<AccountId>)
    ensures SinglePass(mails, s + t, blocked) == SinglePass(SinglePass(mails, s, blocked), t, blocked)
    decreases |s|
  {
    if s == [] {
      assert s + t == t;
    } else {
      assert (s + t)[1..] == s[1..] + t;
      PassAppends(SendTo(mails, s[0], s[0] in blocked), s[1..], t, blocked);
    }
  }

  /** After a pass everyone on the list has a mail, nobody else got one, and
      accounts that already had theirs were left alone. */
  lemma {:induction false} PassSpec(mails: seq<Mail>, accounts: seq<AccountId>, blocked: set<AccountId>)
    ensures mails <= SinglePass(mails, accounts, blocked)
    ensures Recipients(SinglePass(mails, accounts, blocked)) == Recipients(mails) + Members(accounts)
    ensures KeysUnique(mails) ==> KeysUnique(SinglePass(mails, accounts, blocked))
    ensures (forall u :: u in accounts ==> u in Recipients(mails)) ==> SinglePass(mails, accounts, blocked) == mails
    decreases |accounts|
  {
    if accounts == [] {
    } else {
      var next := SendTo(mails, accounts[0], accounts[0] in blocked);
      SendToSpec(mails, accounts[0], accounts[0] in blocked);
      PassSpec(next, accounts[1..], blocked);
      assert accounts[0] in accounts;
      assert Members(accounts) == {accounts[0]} + Members(accounts[1..]);
    }
  }

  lemma OneMore(others: set<AccountId>, u: AccountId, done: set<AccountId>)
    requires u !in others
    ensures |(others + {u}) - done| == |others - (done + {u})| + (if u in done then 0 else 1)
  {
    if u in done {
      assert (others + {u}) - done == others - (done + {u});
    } else {
      assert (others + {u}) - done == (others - (done + {u})) + {u};
    }
  }

  lemma FirstIsNew(accounts: seq<AccountId>)
    requires Ascending(accounts) && accounts != []
    ensures Ascending(accounts[1..]) && accounts[0] !in Members(accounts[1..])
    ensures Members(accounts) == Members(accounts[1..]) + {accounts[0]}
  {
  }

  /** A pass over distinct accounts adds exactly one row for each of them that
      had none. */
  lemma {:induction false} PassCount(mails: seq<Mail>, accounts: seq<AccountId>, blocked: set<AccountId>)
    requires Ascending(accounts)
    ensures |SinglePass(mails, accounts, blocked)| == |mails| + |Members(accounts) - Recipients(mails)|
    decreases |accounts|
  {
    if accounts == [] {
      assert Members(accounts) - Recipients(mails) == {};
    } else {
      var u, rest := accounts[0], accounts[1..];
      SendToSpec(mails, u, u in blocked);
      PassCount(SendTo(mails, u, u in blocked), rest, blocked);
      FirstIsNew(accounts);
      OneMore(Members(rest), u, Recipients(mails));
    }
  }

  /** A pass over one account more. */
  lemma OneFurther(mails: seq<Mail>, accounts: seq<AccountId>, i: nat, blocked: set<AccountId>)
    requires Ascending(accounts) && i < |accounts|
    ensures var u, sofar := accounts[i], SinglePass(mails, accounts[..i], blocked);
            && u in accounts && u !in Members(accounts[..i])
            && SinglePass(mails, accounts[..i + 1], blocked) == SendTo(sofar, u, u in blocked)
            && Members(accounts[..i + 1]) == Members(accounts[..i]) + {u}
            && Recipients(SendTo(sofar, u, u in blocked)) == Recipients(sofar) + {u}
  {
    var u, sofar := accounts[i], SinglePass(mails, accounts[..i], blocked);
    assert accounts[..i + 1] == accounts[..i] + [u];
    PassAppends(mails, accounts[..i], [u], blocked);
    assert SinglePass(sofar, [u], blocked) == SendTo(sofar, u, u in blocked);
    SendToSpec(sofar, u, u in blocked);
  }

  /** Sending to somebody before or after a withdrawal makes no difference to what a
      later withdrawal leaves. */
  lemma {:induction false} WithdrawnAlike(mails: seq<Mail>, other: seq<Mail>, accounts: seq<AccountId>, blocked: set<AccountId>)
    requires Withdraw(mails) == Withdraw(other)
    ensures Withdraw(SinglePass(mails, accounts, blocked)) == Withdraw(SinglePass(other, accounts, blocked))
    decreases |accounts|
  {
    if accounts == [] {
    } else {
      var u := accounts[0];
      SentAlike(mails, other, u, u in blocked);
      WithdrawnAlike(SendTo(mails, u, u in blocked), SendTo(other, u, u in blocked), accounts[1..], blocked);
    }
  }

  lemma SentAlike(mails: seq<Mail>, other: seq<Mail>, u: AccountId, blocked: bool)
    requires Withdraw(mails) == Withdraw(other)
    ensures Withdraw(SendTo(mails, u, blocked)) == Withdraw(SendTo(other, u, blocked))
  {
    WithdrawKeepsRecipients(mails);
    WithdrawKeepsRecipients(other);
    assert Recipients(mails) == Recipients(other);
    if u !in Recipients(mails) {
      WithdrawMore(mails, Fresh(u, blocked));
      WithdrawMore(other, Fresh(u, blocked));
    }
  }

  lemma WithdrawMore(mails: seq<Mail>, mail: Mail)
    ensures Withdraw(mails + [mail]) == Withdraw(mails) + [Withdrawn(mail)]
  {
  }

  /** Wherever a cancel lands in a pass, the withdrawal after it leaves the same mails:
      those of the whole pass, withdrawn. */
  lemma WithdrawMidway(mails: seq<Mail>, s: seq<AccountId>, t: seq<AccountId>, blocked: set<AccountId>)
    ensures Withdraw(SinglePass(Withdraw(SinglePass(mails, s, blocked)), t, blocked)) ==
            Withdraw(SinglePass(mails, s + t, blocked))
  {
    var halfway := SinglePass(mails, s, blocked);
    assert Withdraw(Withdraw(halfway)) == Withdraw(halfway);
    WithdrawnAlike(Withdraw(halfway), halfway, t, blocked);
    PassAppends(mails, s, t, blocked);
  }
}

/** The two-step login of one account: its app, passkeys and backup codes
    (accounts/two_step.py), and what the sign-in policy lets it remove. */
module TwoStep {
  import opened Basics
  import opened SignIn

  datatype Kind = App | Key

  /** Exactly one device carries the name the login asks for first; the others are
      named after their kind. */
  datatype Name = Default | Named(kind: Kind)

  datatype Device = Device(kind: Kind, id: nat, created: int, name: Name)

  /** `codes` is how many backup codes are left on the account's set of codes, if it
      has one. */
  datatype Login = Login(devices: seq<Device>, codes: Option<nat>)

  const BACKUP_CODE_COUNT := 10

  predicate IsOn(devices: seq<Device>) {
    devices != []
  }

  predicate HasKey(devices: seq<Device>) {
    exists i :: 0 <= i < |devices| && devices[i].kind == Key
  }

  predicate HasApp(devices: seq<Device>) {
    exists i :: 0 <= i < |devices| && devices[i].kind == App
  }

  predicate HasDefault(devices: seq<Device>) {
    exists i :: 0 <= i < |devices| && devices[i].name == Default
  }

  /** Oldest first; of two made at the same instant the lower number, and the app
      before a passkey. */
  predicate Older(d: Device, e: Device) {
    || d.created < e.created
    || (d.created == e.created && d.id < e.id)
    || (d.created == e.created && d.id == e.id && d.kind == App && e.kind == Key)
  }

  /** The place of the oldest device among the first `n`. */
  function Oldest(devices: seq<Device>, n: nat): (i: nat)
    requires 0 < n <= |devices|
    ensures i < n && forall j :: 0 <= j < n ==> !Older(devices[j], devices[i])
  {
    if n == 1 then 0
    else
      var i := Oldest(devices, n - 1);
      if Older(devices[n - 1], devices[i]) then n - 1 else i
  }

  /** No device was there before the oldest one: it was made first, of those made at the
      same instant it has the lowest number, and of two with one number it is the app. */
  lemma OldestIsFirst(devices: seq<Device>, n: nat, j: nat)
    requires j < n <= |devices|
    ensures var d, e := devices[Oldest(devices, n)], devices[j];
            && d.created <= e.created
            && (d.created == e.created ==> d.id <= e.id)
            && (d.created == e.created && d.id == e.id && d.kind == Key ==> e.kind == Key)
  {
    assert !Older(devices[j], devices[Oldest(devices, n)]);
  }

  function Without(devices: seq<Device>, i: nat): seq<Device>
    requires i < |devices|
  {
    devices[..i] + devices[i + 1..]
  }

  /** When nobody carries the default name the oldest device gets it. */
  function EnsureDefault(devices: seq<Device>): seq<Device> {
    if devices == [] || HasDefault(devices) then devices
    else var i := Oldest(devices, |devices|); devices[i := devices[i].(name := Default)]
  }

  /** A device that is enough for a level above a password. */
  predicate Enough(d: Device, level: Level) {
    level == Passkey ==> d.kind == Key
  }

  /** None of the devices that would be left is enough for the level the policy enforces. */
  predicate Blocks(devices: seq<Device>, removed: Option<nat>, level: Level)
    requires removed.Some? ==> removed.value < |devices|
  {
    && level != Password
    && !exists i :: 0 <= i < |devices| && removed.Some? && i != removed.value && Enough(devices[i], level)
  }

  /** The sign-in status of a session that passed two-step login. */
  function VerifiedStatus(devices: seq<Device>, level: Level): Status {
    SessionStatus(devices, true, level)
  }

  /** The sign-in status of any session. */
  function SessionStatus(devices: seq<Device>, verified: bool, level: Level): Status {
    StatusOf(IsOn(devices), HasKey(devices), verified, level)
  }

  /** A session meets a level above a password exactly if it is verified and one of the
      devices is enough for it. */
  lemma SessionExactly(devices: seq<Device>, verified: bool, level: Level)
    ensures SessionStatus(devices, verified, level) == OK <==>
              level == Password || (verified && exists i :: 0 <= i < |devices| && (level == Passkey ==> devices[i].kind == Key))
  {
    StatusExactly(IsOn(devices), HasKey(devices), verified, level);
    if level == TwoStep && devices != [] { assert devices[0].kind == Key || devices[0].kind == App; }
  }

  // ----------------------------------------------------------- the operations

  function Add(s: Login, d: Device): Login {
    s.(devices := s.devices + [d.(name := if s.devices == [] then Default else Named(d.kind))])
  }

  function RemoveOf(s: Login, i: nat): Login
    requires i < |s.devices|
  {
    var left := Without(s.devices, i);
    if IsOn(left) then s.(devices := EnsureDefault(left)) else Login(left, None)
  }

  function AllOff(): Login {
    Login([], None)
  }

  // ------------------------------------------------------------ what is kept

  ghost predicate OneDefault(devices: seq<Device>) {
    exists i :: 0 <= i < |devices| && devices[i].name == Default &&
      forall j :: 0 <= j < |devices| && j != i ==> devices[j].name == Named(devices[j].kind)
  }

  ghost predicate Inv(s: Login) {
    && (s.devices != [] ==> OneDefault(s.devices))
    && (forall i, j :: 0 <= i < |s.devices| && 0 <= j < |s.devices| && s.devices[i].kind == App && s.devices[j].kind == App ==> i == j)
    && (s.codes.Some? ==> s.devices != [])
  }

  lemma AddKeeps(s: Login, d: Device)
    requires Inv(s) && (d.kind == App ==> !HasApp(s.devices))
    ensures Inv(Add(s, d))
  {
    var t := Add(s, d);
    if s.devices == [] {
      assert t.devices[0].name == Default;
    } else {
      var i :| 0 <= i < |s.devices| && s.devices[i].name == Default &&
        forall j :: 0 <= j < |s.devices| && j != i ==> s.devices[j].name == Named(s.devices[j].kind);
      assert t.devices[i].name == Default;
    }
  }

  /** Device `k` of what is left is device `k`, or the one after it, of what there was. */
  lemma WithoutAt(devices: seq<Device>, i: nat, k: nat)
    requires i < |devices| && k < |devices| - 1
    ensures |Without(devices, i)| == |devices| - 1
    ensures Without(devices, i)[k] == devices[if k < i then k else k + 1]
  {
  }

  lemma RemoveKeepsDefault(devices: seq<Device>, i: nat)
    requires i < |devices| && OneDefault(devices) && Without(devices, i) != []
    ensures OneDefault(EnsureDefault(Without(devices, i)))
  {
    var left := Without(devices, i);
    forall k | 0 <= k < |left| ensures left[k] == devices[if k < i then k else k + 1] {
      WithoutAt(devices, i, k);
    }
    var d :| 0 <= d < |devices| && devices[d].name == Default &&
      forall j :: 0 <= j < |devices| && j != d ==> devices[j].name == Named(devices[j].kind);
    if d == i {
      assert forall k :: 0 <= k < |left| ==> left[k].name == Named(left[k].kind);
      assert !HasDefault(left);
      var o := Oldest(left, |left|);
      assert EnsureDefault(left)[o].name == Default;
    } else {
      var k := if d < i then d else d - 1;
      assert left[k] == devices[d];
      assert HasDefault(left);
    }
  }

  /** Renaming changes neither how many devices there are nor their kinds. */
  lemma EnsureKeepsKinds(devices: seq<Device>)
    ensures |EnsureDefault(devices)| == |devices|
    ensures forall i :: 0 <= i < |devices| ==> EnsureDefault(devices)[i].kind == devices[i].kind
  {
  }

  lemma RemoveKeeps(s: Login, i: nat)
    requires Inv(s) && i < |s.devices|
    ensures Inv(RemoveOf(s, i))
  {
    var left := Without(s.devices, i);
    if left != [] {
      RemoveKeepsDefault(s.devices, i);
      EnsureKeepsKinds(left);
      var t := RemoveOf(s, i).devices;
      forall j, k | 0 <= j < |t| && 0 <= k < |t| && t[j].kind == App && t[k].kind == App ensures j == k {
        WithoutAt(s.devices, i, j);
        WithoutAt(s.devices, i, k);
      }
    }
  }

  // ---------------------------------------------- the requirement and removals

  lemma KeyLeft(devices: seq<Device>, i: nat)
    requires i < |devices|
    ensures HasKey(EnsureDefault(Without(devices, i))) <==> exists k :: 0 <= k < |devices| && k != i && devices[k].kind == Key
  {
    var left := Without(devices, i);
    EnsureKeepsKinds(left);
    forall k | 0 <= k < |left| ensures left[k] == devices[if k < i then k else k + 1] {
      WithoutAt(devices, i, k);
    }
    if k :| 0 <= k < |devices| && k != i && devices[k].kind == Key {
      var m := if k < i then k else k - 1;
      assert EnsureDefault(left)[m].kind == Key;
    }
    if HasKey(EnsureDefault(left)) {
      var m :| 0 <= m < |left| && EnsureDefault(left)[m].kind == Key;
      assert devices[if m < i then m else m + 1].kind == Key;
    }
  }

  /** Removing a device is refused exactly when a verified session of the account
      would no longer meet what its roles require. */
  lemma BlocksExactly(s: Login, i: nat, level: Level)
    requires i < |s.devices|
    ensures Blocks(s.devices, Some(i), level) <==> VerifiedStatus(RemoveOf(s, i).devices, level) != OK
  {
    KeyLeft(s.devices, i);
    EnsureKeepsKinds(Without(s.devices, i));
    if |s.devices| > 1 {
      var other := if i == 0 then 1 else 0;
      assert 0 <= other < |s.devices| && other != i;
    }
  }

  /** And turning everything off exactly when a requirement is enforced at all. */
  lemma TurnOffBlocksExactly(devices: seq<Device>, level: Level)
    ensures Blocks(devices, None, level) <==> VerifiedStatus(AllOff().devices, level) != OK
  {
  }

  // --------------------------------------------------------------- every run

  /** `level` is what the policy enforces for the account at that moment. New backup
      codes are only made for an account that is on (accounts/security_views.py). */
  datatype Step =
    | AddApp(d: Device)
    | AddPasskey(d: Device)
    | RemoveOne(i: nat, level: Level)
    | TurnOff(level: Level, byOrganisation: bool)
    | MakeCodes
    | UseCode

  predicate Enabled(s: Login, step: Step) {
    match step
    case AddApp(d) => d.kind == App && !HasApp(s.devices)
    case AddPasskey(d) => d.kind == Key
    case RemoveOne(i, level) => i < |s.devices| && !Blocks(s.devices, Some(i), level)
    case TurnOff(level, byOrganisation) => byOrganisation || !Blocks(s.devices, None, level)
    case MakeCodes => IsOn(s.devices)
    case UseCode => s.codes.Some? && 0 < s.codes.value
  }

  function Apply(s: Login, step: Step): Login
    requires Enabled(s, step)
  {
    match step
    case AddApp(d) => Add(s, d)
    case AddPasskey(d) => Add(s, d)
    case RemoveOne(i, _) => RemoveOf(s, i)
    case TurnOff(_, _) => AllOff()
    case MakeCodes => s.(codes := Some(BACKUP_CODE_COUNT))
    case UseCode => s.(codes := Some(s.codes.value - 1))
  }

  predicate Possible(s: Login, steps: seq<Step>)
    decreases |steps|
  {
    steps == [] || (Enabled(s, steps[0]) && Possible(Apply(s, steps[0]), steps[1..]))
  }

  function Exec(s: Login, steps: seq<Step>): Login
    requires Possible(s, steps)
    decreases |steps|
  {
    if steps == [] then s else Exec(Apply(s, steps[0]), steps[1..])
  }

  /** New codes are ten, for an account that is on; using one leaves one fewer; and they
      go with everything else. */
  lemma CodesExactly(s: Login)
    ensures Enabled(s, MakeCodes) <==> s.devices != []
    ensures Enabled(s, MakeCodes) ==> Apply(s, MakeCodes) == s.(codes := Some(10))
    ensures Enabled(s, UseCode) <==> s.codes.Some? && s.codes.value > 0
    ensures Enabled(s, UseCode) ==> Apply(s, UseCode) == s.(codes := Some(s.codes.value - 1))
    ensures AllOff().codes == None && AllOff().devices == []
  {
  }

  lemma {:induction false} Always(s: Login, steps: seq<Step>)
    requires Inv(s) && Possible(s, steps)
    ensures Inv(Exec(s, steps))
    decreases |steps|
  {
    if steps == [] {
    } else {
      match steps[0] {
        case AddApp(d) => AddKeeps(s, d);
        case AddPasskey(d) => AddKeeps(s, d);
        case RemoveOne(i, _) => RemoveKeeps(s, i);
        case _ =>
      }
      Always(Apply(s, steps[0]), steps[1..]);
    }
  }

  /** Device `k` is another one than `i`, and a passkey if one is asked for. */
  predicate WillDo(devices: seq<Device>, i: nat, k: nat, level: Level) {
    k < |devices| && k != i && (level == Passkey ==> devices[k].kind == Key)
  }

  /** A device goes exactly if nothing is required or another one will do. */
  lemma RemovingExactly(s: Login, i: nat, level: Level)
    requires i < |s.devices|
    ensures Enabled(s, RemoveOne(i, level)) <==> level == Password || exists k: nat :: WillDo(s.devices, i, k, level)
  {
    if k :| 0 <= k < |s.devices| && k != i && Enough(s.devices[k], level) {
      assert WillDo(s.devices, i, k, level);
    }
    if k: nat :| WillDo(s.devices, i, k, level) {
      assert Enough(s.devices[k], level);
    }
  }

  /** The organisation can always turn everything off, the person exactly while nothing
      is required; there is one app at a time, and any number of passkeys. */
  lemma StepsExactly(s: Login, d: Device, level: Level)
    ensures Enabled(s, TurnOff(level, true)) && (Enabled(s, TurnOff(level, false)) <==> level == Password)
    ensures Enabled(s, AddPasskey(d)) <==> d.kind == Key
    ensures Enabled(s, AddApp(d)) <==> d.kind == App && forall k :: 0 <= k < |s.devices| ==> s.devices[k].kind == Key
  {
    if k :| 0 <= k < |s.devices| && s.devices[k].kind == App { assert HasApp(s.devices); }
  }

  lemma RunsOne(s: Login, step: Step, rest: seq<Step>)
    requires Enabled(s, step) && Possible(Apply(s, step), rest)
    ensures Possible(s, [step] + rest) && Exec(s, [step] + rest) == Exec(Apply(s, step), rest)
  {
    assert ([step] + rest)[1..] == rest;
  }

  /** From an account without anything, with an app, then a passkey, the app can go: a
      verified session then meets every level. */
  lemma FromAppToPasskey(app: Device, passkey: Device)
    requires app.kind == App && passkey.kind == Key
    ensures exists steps ::
              && Possible(AllOff(), steps)
              && Exec(AllOff(), steps) == Login([passkey.(name := Default)], None)
              && forall level :: SessionStatus(Exec(AllOff(), steps).devices, true, level) == OK
  {
    var a, b, c := AddApp(app), AddPasskey(passkey), RemoveOne(0, Passkey);
    var s1 := Apply(AllOff(), a);
    var s2 := Apply(s1, b);
    RemovingExactly(s2, 0, Passkey);
    assert WillDo(s2.devices, 0, 1, Passkey);
    var s3 := Apply(s2, c);
    assert Without(s2.devices, 0) == [passkey.(name := Named(Key))];
    RunsOne(s2, c, []);
    RunsOne(s1, b, [c] + []);
    RunsOne(AllOff(), a, [b] + ([c] + []));
    forall level ensures SessionStatus(s3.devices, true, level) == OK {
      SessionExactly(s3.devices, true, level);
      assert s3.devices[0].kind == Key;
    }
    assert Possible(AllOff(), [a] + ([b] + ([c] + [])));
  }

  /** From an account without two-step login: whatever is added and removed, one
      device is the default as long as there is one, at most one is an app, backup
      codes exist only alongside a device, and after the person's own removal a
      verified session meets the level that was enforced. */
  lemma TwoStepLogin(steps: seq<Step>, last: Step)
    requires Possible(AllOff(), steps) && Enabled(Exec(AllOff(), steps), last)
    ensures var s := Exec(AllOff(), steps);
            var t := Apply(s, last);
            && Inv(s) && Inv(t)
            && (last.RemoveOne? ==> VerifiedStatus(t.devices, last.level) == OK)
            && (last.TurnOff? && !last.byOrganisation ==> VerifiedStatus(t.devices, last.level) == OK)
            && (forall level :: level != Password ==> SessionStatus(t.devices, false, level) != OK)
  {
    Always(AllOff(), steps);
    var s := Exec(AllOff(), steps);
    var one := [last];
    var none: seq<Step> := [];
    assert one[1..] == none && Possible(Apply(s, last), none) && Exec(Apply(s, last), none) == Apply(s, last);
    assert Exec(s, one) == Apply(s, last);
    Always(s, one);
    match last {
      case RemoveOne(i, level) => BlocksExactly(s, i, level);
      case _ =>
    }
    forall level | level != Password ensures SessionStatus(Apply(s, last).devices, false, level) != OK {
      SessionExactly(Apply(s, last).devices, false, level);
    }
  }

  // ----------------------------------------------------------- the functions

  class Account {
    var devices: seq<Device>
    var codes: Option<nat>

    function Now(): Login
      reads this
    {
      Login(devices, codes)
    }

    constructor ()
      ensures Now() == AllOff()
    {
      devices, codes := [], Option.None;
    }

    /** A new app is refused while the account has one. */
    method AddApp(d: Device) returns (ok: bool)
      requires d.kind == App
      modifies this`devices
      ensures ok == !HasApp(old(devices))
      ensures Now() == if ok then Add(old(Now()), d) else old(Now())
    {
      if HasApp(devices) {
        return false;
      }
      Added(d);
      ok := true;
    }

    method AddPasskey(d: Device)
      requires d.kind == Key
      modifies this`devices
      ensures Now() == Add(old(Now()), d)
    {
      Added(d);
    }

    /** The device is saved first, then named: the default if it is the only one. */
    method Added(d: Device)
      modifies this`devices
      ensures Now() == Add(old(Now()), d)
    {
      devices := devices + [d];
      var wasOn := |devices| > 1;
      var last := |devices| - 1;
      devices := devices[last := devices[last].(name := if !wasOn then Default else Named(d.kind))];
    }

    method RequirementBlocks(removed: Option<nat>, level: Level) returns (blocked: bool)
      requires removed.Some? ==> removed.value < |devices|
      ensures blocked == Blocks(devices, removed, level)
    {
      if level == Password {
        return false;
      }
      var i := 0;
      while i < |devices|
        invariant 0 <= i <= |devices|
        invariant forall k :: 0 <= k < i && removed.Some? && k != removed.value ==> !Enough(devices[k], level)
      {
        if removed.Some? && i != removed.value && Enough(devices[i], level) {
          return false;
        }
        i := i + 1;
      }
      blocked := true;
    }

    method RenameOldest()
      modifies this`devices
      ensures devices == EnsureDefault(old(devices))
    {
      if devices != [] && !HasDefault(devices) {
        var first := 0;
        var i := 1;
        while i < |devices|
          invariant 1 <= i <= |devices| && first == Oldest(devices, i)
        {
          if Older(devices[i], devices[first]) {
            first := i;
          }
          i := i + 1;
        }
        devices := devices[first := devices[first].(name := Default)];
      }
    }

    /** The person removes one of their own devices. */
    method Remove(i: nat, level: Level) returns (ok: bool)
      requires i < |devices|
      modifies this
      ensures ok == !Blocks(old(devices), Some(i), level)
      ensures Now() == if ok then RemoveOf(old(Now()), i) else old(Now())
    {
      var blocked := RequirementBlocks(Some(i), level);
      if blocked {
        return false;
      }
      devices := Without(devices, i);
      if IsOn(devices) {
        RenameOldest();
      } else {
        codes := Option.None;
      }
      ok := true;
    }

    method TurnOff(level: Level, byOrganisation: bool) returns (ok: bool)
      modifies this
      ensures ok == (byOrganisation || !Blocks(old(devices), Option.None, level))
      ensures Now() == if ok then AllOff() else old(Now())
    {
      if !byOrganisation {
        var blocked := RequirementBlocks(Option.None, level);
        if blocked {
          return false;
        }
      }
      devices, codes := [], Option.None;
      ok := true;
    }

    method MakeBackupCodes()
      modifies this`codes
      ensures Now() == old(Now()).(codes := Some(BACKUP_CODE_COUNT))
    {
      codes := Some(BACKUP_CODE_COUNT);
    }
  }
}

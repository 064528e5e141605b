/** One user's passwords: every way of setting one, and the ten-deep memory against reuse.
    A hash is modelled by the password it accepts. */
module PasswordHistory {
  import opened Prelude
  import opened PasswordRules
  import opened Runs

  const KEPT := 10

  datatype Error = WrongPassword | TooShort | TooWeak | Reused | ReusedRecently | NotStored

  /** `history` is newest first. `org` decides whether a new password is ever stored: the UPDATE is
      scoped by org_id, but the history is not. */
  datatype Account = Account(org: Option<Id>, password: string, history: seq<string>)

  function FirstOf<T>(s: seq<T>, n: nat): seq<T> { if |s| <= n then s else s[..n] }

  /** ValidateNewPassword; `current` is None when there is no hash to compare with. A history that
      cannot be read (`unread`) is passed over. */
  function NewPasswordError(p: Policy, pw: string, current: Option<string>, history: seq<string>,
                            unread: bool): Option<Error> {
    if |pw| < p.minLength then Some(TooShort)
    else if Missing(pw, p) != [] then Some(TooWeak)
    else if current == Some(pw) then Some(Reused)
    else if !unread && pw in FirstOf(history, KEPT) then Some(ReusedRecently)
    else None
  }

  /** RecordPasswordChange: insert, then delete all but the newest ten. */
  function Recorded(history: seq<string>, pw: string): seq<string> { FirstOf([pw] + history, KEPT) }

  datatype Op =
    | Change(claimed: string, wanted: string, unread: bool) // ChangePassword
    | Replace(wanted: string, unread: bool, lost: bool)     // UpdateUserFull; "" leaves the password alone
    | Reset(temporary: string)                              // ResetPassword: not validated

  /** What is refused before anything is written. */
  function Refusal(p: Policy, a: Account, op: Op): Option<Error> {
    match op
    case Change(claimed, wanted, unread) =>
      if claimed != a.password then Some(WrongPassword)
      else NewPasswordError(p, wanted, Some(a.password), a.history, unread)
    case Replace(wanted, unread, _) =>
      if wanted == "" then None else NewPasswordError(p, wanted, Some(a.password), a.history, unread)
    case Reset(_) => None
  }

  /** UpdateUserFull writes the history first, and the row after it may be `lost`. (The other calls
      write the row first, so a failure there leaves nothing behind.) */
  predicate Lost(op: Op) { op.Replace? && op.lost }

  function OpError(p: Policy, a: Account, op: Op): Option<Error> {
    var refusal := Refusal(p, a, op);
    if refusal.None? && Lost(op) then Some(NotStored) else refusal
  }

  function Wanted(op: Op): string { if op.Reset? then op.temporary else op.wanted }

  /** The operation records a password. */
  predicate Records(p: Policy, a: Account, op: Op) { Refusal(p, a, op).None? && !(op.Replace? && op.wanted == "") }

  /** A recorded password also becomes the user's. */
  predicate Stores(org: Option<Id>, op: Op) { org.Some? && !Lost(op) }

  function AfterOp(p: Policy, a: Account, op: Op): Account {
    if !Records(p, a, op) then a
    else
      a.(password := if Stores(a.org, op) then Wanted(op) else a.password, history := Recorded(a.history, Wanted(op)))
  }

  class User {
    const policy: Policy
    const org: Option<Id>
    var password: string
    var history: seq<string>

    ghost function State(): Account
      reads this
    { Account(org, password, history) }

    constructor (policy: Policy, org: Option<Id>, first: string)
      ensures this.policy == policy && State() == Account(org, first, [first])
    {
      this.policy, this.org, password, history := policy, org, first, [first];
    }

    /** A first password has nothing to be compared with: the history looked at is the nil user's. */
    static method Register(policy: Policy, org: Option<Id>, first: string, unread: bool)
      returns (user: User?, err: Option<Error>)
      ensures err == NewPasswordError(policy, first, None, [], unread)
      ensures (user == null) == err.Some?
      ensures user != null ==> fresh(user) && user.policy == policy && user.State() == Account(org, first, [first])
    {
      err := Validate(policy, first, None, [], unread);
      user := null;
      if err.None? { user := new User(policy, org, first); }
    }

    /** ValidateNewPassword, given the policy in force and the stored history. */
    static method Validate(policy: Policy, pw: string, current: Option<string>, history: seq<string>, unread: bool)
      returns (err: Option<Error>)
      ensures err == NewPasswordError(policy, pw, current, history, unread)
    {
      if |pw| < policy.minLength { return Some(TooShort); }
      var missing := ValidateComplexity(pw, policy);
      if |missing| > 0 { return Some(TooWeak); }
      if current.Some? && current.value == pw { return Some(Reused); }
      if unread { return None; }
      var recent := if |history| <= KEPT then history else history[..KEPT];
      for i := 0 to |recent|
        invariant pw !in recent[..i]
      {
        if recent[i] == pw { return Some(ReusedRecently); }
      }
      return None;
    }

    method Record(pw: string)
      modifies this`history
      ensures history == Recorded(old(history), pw)
    {
      history := [pw] + history;
      if |history| > KEPT { history := history[..KEPT]; }
    }

    /** UserRepository.Update: no error when no row matches. */
    method Update(pw: string)
      modifies this`password
      ensures password == if org.Some? then pw else old(password)
    {
      if org.Some? { password := pw; }
    }

    method ChangePassword(claimed: string, wanted: string, unread: bool) returns (err: Option<Error>)
      modifies this
      ensures err == OpError(policy, old(State()), Change(claimed, wanted, unread))
      ensures State() == AfterOp(policy, old(State()), Change(claimed, wanted, unread))
    {
      if claimed != password { return Some(WrongPassword); }
      err := Validate(policy, wanted, Some(password), history, unread);
      if err.Some? { return; }
      Update(wanted);
      Record(wanted);
    }

    /** The history is written before the row. */
    method UpdateUserFull(wanted: string, unread: bool, lost: bool) returns (err: Option<Error>)
      modifies this
      ensures err == OpError(policy, old(State()), Replace(wanted, unread, lost))
      ensures State() == AfterOp(policy, old(State()), Replace(wanted, unread, lost))
    {
      if wanted != "" {
        err := Validate(policy, wanted, Some(password), history, unread);
        if err.Some? { return; }
        Record(wanted);
      }
      if lost { return Some(NotStored); }
      if wanted != "" { Update(wanted); }
      return None;
    }

    method ResetPassword(temporary: string)
      modifies this
      ensures State() == AfterOp(policy, old(State()), Reset(temporary))
    {
      Update(temporary);
      Record(temporary);
    }
  }

  /** What a call changes: a reset always, a change or an edit if it is accepted, puts its password in
      front of the history, which never grows past ten; and it becomes the user's, if the user has an
      organisation and the row can be written. An edit without a password, or a refused call, changes
      nothing. */
  lemma CallLeaves(p: Policy, a: Account, op: Op)
    ensures var after, err := AfterOp(p, a, op), OpError(p, a, op);
      var recorded := op.Reset? || (err.None? && (op.Change? || op.wanted != ""))
        || (err == Some(NotStored) && op.wanted != "");
      if !recorded then after == a
      else
        && after.org == a.org
        && after.password == (if a.org.Some? && !(op.Replace? && op.lost) then Wanted(op) else a.password)
        && |after.history| == (if |a.history| < 10 then |a.history| + 1 else 10) && after.history[0] == Wanted(op)
        && forall k | 0 < k < |after.history| :: after.history[k] == a.history[k - 1]
    ensures op.Reset? ==> OpError(p, a, op).None?
  {}

  // ---------- runs ----------

  /** A password that was recorded, whether it became the user's, whether it went through validation,
      and whether the history was looked at. */
  datatype Had = Had(password: string, stored: bool, validated: bool, checked: bool)

  function HadBy(org: Option<Id>, op: Op): Had {
    Had(Wanted(op), Stores(org, op), !op.Reset?, !op.Reset? && !op.unread)
  }

  /** Every password recorded since registration, newest first: a whole life, which no table keeps. */
  function Life(p: Policy, org: Option<Id>, first: string, ops: seq<Op>, n: nat): seq<Had>
    requires n <= |ops|
  {
    if n == 0 then [Had(first, true, true, true)]
    else
      var before, op := Life(p, org, first, ops, n - 1), ops[n - 1];
      if Records(p, After(p, org, first, ops, n - 1), op) then [HadBy(org, op)] + before else before
  }

  function After(p: Policy, org: Option<Id>, first: string, ops: seq<Op>, n: nat): Account
    requires n <= |ops|
  { At((a: Account, op: Op) => AfterOp(p, a, op), Account(org, first, [first]), ops, n) }

  function Passwords(life: seq<Had>): seq<string> { Each(life, (h: Had) => h.password) }

  lemma LastTenMovesOn(life: seq<Had>, h: Had)
    ensures Recorded(FirstOf(Passwords(life), KEPT), h.password) == FirstOf(Passwords([h] + life), KEPT)
  {
    assert Passwords([h] + life) == [h.password] + Passwords(life);
  }

  /** The password in force after such a life: the newest that was stored. */
  function InForce(life: seq<Had>): string {
    if life == [] then "" else if life[0].stored then life[0].password else InForce(life[1..])
  }

  lemma InForceMovesOn(life: seq<Had>, h: Had)
    ensures InForce([h] + life) == if h.stored then h.password else InForce(life)
  {
    assert ([h] + life)[1..] == life;
  }

  /** The history table holds exactly the last ten passwords recorded, newest first, and the user's
      password is the newest of the whole life that was stored. */
  lemma {:induction false} HistoryIsTheLastTen(p: Policy, org: Option<Id>, first: string, ops: seq<Op>, n: nat)
    requires n <= |ops|
    ensures Life(p, org, first, ops, n) != []
    ensures After(p, org, first, ops, n)
      == Account(org, InForce(Life(p, org, first, ops, n)), FirstOf(Passwords(Life(p, org, first, ops, n)), KEPT))
    ensures var life, history := Life(p, org, first, ops, n), After(p, org, first, ops, n).history;
      && |history| == (if |life| < 10 then |life| else 10)
      && forall k | 0 <= k < |history| :: history[k] == life[k].password
  {
    if n > 0 {
      HistoryIsTheLastTen(p, org, first, ops, n - 1);
      var op := ops[n - 1];
      LastTenMovesOn(Life(p, org, first, ops, n - 1), HadBy(org, op));
      InForceMovesOn(Life(p, org, first, ops, n - 1), HadBy(org, op));
    } else {
      assert Passwords(Life(p, org, first, ops, 0)) == [first];
    }
  }

  /** The password at k differs from the ten before it. */
  ghost predicate Fresh(life: seq<Had>, k: nat)
    requires k < |life|
  { forall j | k < j < |life| && j <= k + 10 :: life[j].password != life[k].password }

  lemma FreshShifts(before: seq<Had>, h: Had, k: nat)
    requires k < |before| && Fresh(before, k)
    ensures Fresh([h] + before, k + 1)
  {
    forall j | k + 1 < j < |before| + 1 && j <= k + 1 + 10
      ensures ([h] + before)[j].password != ([h] + before)[k + 1].password
    {
      assert ([h] + before)[j] == before[j - 1];
    }
  }

  lemma NewestIsFresh(before: seq<Had>, h: Had)
    requires h.password !in FirstOf(FirstOf(Passwords(before), KEPT), KEPT)
    ensures Fresh([h] + before, 0)
  {
    var recent := FirstOf(FirstOf(Passwords(before), KEPT), KEPT);
    forall j | 0 < j < |before| + 1 && j <= 10 ensures ([h] + before)[j].password != h.password {
      assert recent[j - 1] == before[j - 1].password;
    }
  }

  ghost predicate Accepted(p: Policy, pw: string) { |pw| >= p.minLength && Missing(pw, p) == [] }

  lemma ValidMeans(p: Policy, pw: string, current: Option<string>, history: seq<string>, unread: bool)
    requires NewPasswordError(p, pw, current, history, unread).None?
    ensures Accepted(p, pw) && current != Some(pw) && (!unread ==> pw !in FirstOf(history, KEPT))
  {}

  /** What a new password is, given the life before it. */
  ghost predicate Sound(p: Policy, life: seq<Had>, k: nat)
    requires k < |life|
  {
    && Accepted(p, life[k].password)
    && (k + 1 < |life| ==> life[k].password != InForce(life[k + 1..]))
    && (life[k].checked ==> Fresh(life, k))
  }

  lemma SoundShifts(p: Policy, before: seq<Had>, h: Had, k: nat)
    requires k < |before| && Sound(p, before, k)
    ensures Sound(p, [h] + before, k + 1)
  {
    var life := [h] + before;
    assert life[k + 1] == before[k] && life[k + 2..] == before[k + 1..];
    if before[k].checked { FreshShifts(before, h, k); }
  }

  lemma NewestIsSound(p: Policy, a: Account, before: seq<Had>, op: Op)
    requires a == Account(a.org, InForce(before), FirstOf(Passwords(before), KEPT))
    requires Records(p, a, op) && !op.Reset?
    ensures Sound(p, [HadBy(a.org, op)] + before, 0)
  {
    ValidMeans(p, op.wanted, Some(a.password), a.history, op.unread);
    assert ([HadBy(a.org, op)] + before)[1..] == before;
    if !op.unread { NewestIsFresh(before, HadBy(a.org, op)); }
  }

  /** A validated password is long enough, complex enough, and not the one in force before it; if the
      history could be read, it is none of the ten before it. */
  lemma {:induction false} ValidatedPasswordsAreFresh(p: Policy, org: Option<Id>, first: string, ops: seq<Op>,
                                                      n: nat, k: nat)
    requires n <= |ops| && NewPasswordError(p, first, None, [], false).None?
    requires k < |Life(p, org, first, ops, n)| && Life(p, org, first, ops, n)[k].validated
    ensures Sound(p, Life(p, org, first, ops, n), k)
  {
    if n == 0 {
      ValidMeans(p, first, None, [], false);
    } else {
      var before, op := Life(p, org, first, ops, n - 1), ops[n - 1];
      if !Records(p, After(p, org, first, ops, n - 1), op) {
        ValidatedPasswordsAreFresh(p, org, first, ops, n - 1, k);
      } else {
        HistoryIsTheLastTen(p, org, first, ops, n - 1);
        if k > 0 {
          assert ([HadBy(org, op)] + before)[k] == before[k - 1];
          ValidatedPasswordsAreFresh(p, org, first, ops, n - 1, k - 1);
          SoundShifts(p, before, HadBy(org, op), k - 1);
        } else {
          NewestIsSound(p, After(p, org, first, ops, n - 1), before, op);
        }
      }
    }
  }

  /** The newest entry of the history is the password in force exactly if it was stored. (A temporary
      password that was not stored may happen to be the one in force.) */
  lemma NewestIsCurrentIff(p: Policy, org: Option<Id>, first: string, ops: seq<Op>, n: nat)
    requires n <= |ops| && NewPasswordError(p, first, None, [], false).None?
    requires Life(p, org, first, ops, n) != [] && (Life(p, org, first, ops, n)[0].validated || org.Some?)
    ensures var a := After(p, org, first, ops, n);
      a.history != [] && (a.history[0] == a.password <==> Life(p, org, first, ops, n)[0].stored)
  {
    HistoryIsTheLastTen(p, org, first, ops, n);
    var life := Life(p, org, first, ops, n);
    LastIsStored(p, org, first, ops, n);
    if life[0].validated { ValidatedPasswordsAreFresh(p, org, first, ops, n, 0); }
    assert life == [life[0]] + life[1..];
    InForceMovesOn(life[1..], life[0]);
  }

  /** The first password was stored; and with an organisation so was every temporary one. */
  lemma {:induction false} LastIsStored(p: Policy, org: Option<Id>, first: string, ops: seq<Op>, n: nat)
    requires n <= |ops|
    ensures var life := Life(p, org, first, ops, n);
      && life != [] && life[|life| - 1].stored
      && (org.Some? ==> forall k | 0 <= k < |life| && !life[k].validated :: life[k].stored)
  {
    if n > 0 { LastIsStored(p, org, first, ops, n - 1); }
  }

  /** A refusal names something that is the case. */
  lemma RefusalIsTrue(p: Policy, a: Account, op: Op)
    ensures match OpError(p, a, op)
      case Some(WrongPassword) => op.Change? && op.claimed != a.password
      case Some(TooShort) => !op.Reset? && |op.wanted| < p.minLength
      case Some(TooWeak) => !op.Reset? && !Meets(op.wanted, p.upper, p.lower, p.numbers, p.special)
      case Some(Reused) => !op.Reset? && op.wanted == a.password
      case Some(ReusedRecently) => !op.Reset? && op.wanted in a.history && !op.unread
      case Some(NotStored) => op.Replace? && op.lost
      case None => true
  {
    if !op.Reset? { MissingMeans(op.wanted, p); }
  }

  /** None of the last ten recorded. */
  ghost predicate NewTo(life: seq<Had>, pw: string) { forall k | 0 <= k < |life| && k < 10 :: life[k].password != pw }

  lemma NewToMeans(life: seq<Had>, pw: string)
    ensures NewTo(life, pw) <==> pw !in FirstOf(FirstOf(Passwords(life), KEPT), KEPT)
  {
    var recent := FirstOf(FirstOf(Passwords(life), KEPT), KEPT);
    assert forall k | 0 <= k < |recent| :: recent[k] == life[k].password;
  }

  /** Which passwords are accepted after any run: the right old one is given, the new one is long and
      complex enough, it is not the one in force, and if the history can be read, none of the last ten. */
  lemma ChangeIsAcceptedIff(p: Policy, org: Option<Id>, first: string, ops: seq<Op>, n: nat,
                            claimed: string, wanted: string, unread: bool)
    requires n <= |ops|
    ensures var a, life := After(p, org, first, ops, n), Life(p, org, first, ops, n);
      OpError(p, a, Change(claimed, wanted, unread)).None? <==>
        && claimed == InForce(life) && |wanted| >= p.minLength
        && Meets(wanted, p.upper, p.lower, p.numbers, p.special)
        && wanted != InForce(life) && (unread || NewTo(life, wanted))
    ensures var a, life := After(p, org, first, ops, n), Life(p, org, first, ops, n);
      wanted != "" ==> forall lost :: (OpError(p, a, Replace(wanted, unread, lost)).None? <==>
        && |wanted| >= p.minLength && Meets(wanted, p.upper, p.lower, p.numbers, p.special)
        && wanted != InForce(life) && (unread || NewTo(life, wanted)) && !lost)
  {
    HistoryIsTheLastTen(p, org, first, ops, n);
    NewToMeans(Life(p, org, first, ops, n), wanted);
    MissingMeans(wanted, p);
  }

  /** What a failed edit leaves behind: once the row could not be written, the same password is refused
      as already used, although the user never had it, exactly if the history can be read. */
  lemma RetryIsRefusedIff(p: Policy, a: Account, wanted: string, unread: bool, again: bool)
    requires wanted != "" && OpError(p, a, Replace(wanted, unread, true)) == Some(NotStored)
    ensures var after := AfterOp(p, a, Replace(wanted, unread, true));
      && after.password == a.password && wanted != a.password
      && OpError(p, after, Replace(wanted, again, false)) == if again then None else Some(ReusedRecently)
  {
    var after := AfterOp(p, a, Replace(wanted, unread, true));
    assert after.history[0] == wanted;
    assert FirstOf(after.history, KEPT)[0] == wanted;
  }

  /** Any eleven passwords in a row, none of them reset and each checked against the history, are
      pairwise different. */
  lemma ElevenInARow(p: Policy, org: Option<Id>, first: string, ops: seq<Op>, start: nat, i: nat, j: nat)
    requires NewPasswordError(p, first, None, [], false).None?
    requires start <= i < j <= start + 10 && j < |Life(p, org, first, ops, |ops|)|
    requires forall k | start <= k <= start + 10 && k < |Life(p, org, first, ops, |ops|)| ::
      Life(p, org, first, ops, |ops|)[k].validated && Life(p, org, first, ops, |ops|)[k].checked
    ensures Life(p, org, first, ops, |ops|)[i].password != Life(p, org, first, ops, |ops|)[j].password
  {
    ValidatedPasswordsAreFresh(p, org, first, ops, |ops|, i);
  }

  /** The smallest case of a history that cannot be read: back to the first password after two changes. */
  lemma UnreadHistoryAllowsReuse()
    ensures var p, a, b := Policy(6, false, false, false, false, 5, 30, None, 6, 5, 30), "aaaaaa", "bbbbbb";
      var changed := AfterOp(p, Account(Some(1), a, [a]), Change(a, b, false));
      && NewPasswordError(p, a, None, [], false).None? && changed == Account(Some(1), b, [b, a])
      && OpError(p, changed, Change(b, a, false)) == Some(ReusedRecently)
      && AfterOp(p, changed, Change(b, a, true)) == Account(Some(1), a, [a, b, a])
  {
    var p := Policy(6, false, false, false, false, 5, 30, None, 6, 5, 30);
    assert "aaaaaa"[0] != "bbbbbb"[0];
    assert Missing("aaaaaa", p) == [] && Missing("bbbbbb", p) == [];
    assert ["bbbbbb", "aaaaaa"][1] == "aaaaaa";
  }

  /** The smallest case of an edit whose row cannot be written: nothing but the history changes, and the
      edit repeated is refused. */
  lemma NeverHadButReused()
    ensures var p, a, b := Policy(6, false, false, false, false, 5, 30, None, 6, 5, 30), "aaaaaa", "bbbbbb";
      var account := Account(Some(1), a, [a]);
      && OpError(p, account, Replace(b, false, true)) == Some(NotStored)
      && AfterOp(p, account, Replace(b, false, true)) == Account(Some(1), a, [b, a])
      && OpError(p, Account(Some(1), a, [b, a]), Replace(b, false, false)) == Some(ReusedRecently)
  {
    var p := Policy(6, false, false, false, false, 5, 30, None, 6, 5, 30);
    assert "aaaaaa"[0] != "bbbbbb"[0];
    assert Missing("bbbbbb", p) == [];
  }
}

/** The login guard: a counter, a timed lock and an administrator's lock on one account. */
module Lockout {
  import opened Prelude
  import opened Runs

  const MINUTE := 60_000_000_000 // nanoseconds
  const DAY := 1440 * MINUTE

  /** `org` decides whether anything is ever stored: the UPDATE is scoped by org_id. */
  datatype Account = Account(
    org: Option<Id>, active: bool, password: string, attempts: nat, isLocked: bool,
    lockedUntil: Option<int>, expires: Option<int>)

  /** The limits of the policy in force. */
  datatype Limits = Limits(maxAttempts: nat, lockoutMins: nat, expiryDays: Option<nat>)

  datatype Answer = Inactive | LockedByAdmin | LockedForNow | Wrong | Expired | Welcome

  /** A login may lose its write: nobody looks at that error. (The other three report it to the
      caller, and have then done nothing.) */
  datatype Op = Login(now: int, given: string, lost: bool) | Lock | Unlock | Reset(now: int, temporary: string)

  function AnswerTo(a: Account, now: int, given: string): Answer {
    if !a.active then Inactive
    else if a.isLocked then LockedByAdmin
    else if a.lockedUntil.Some? && a.lockedUntil.value > now then LockedForNow
    else if given != a.password then Wrong
    else if a.expires.Some? && a.expires.value < now then Expired
    else Welcome
  }

  /** The row after UserRepository.Update: a user without an organisation matches no row. */
  function Stored(before: Account, after: Account, lost: bool): Account {
    if before.org.Some? && !lost then after else before
  }

  function AfterWrong(l: Limits, a: Account, now: int): Account {
    var n := a.attempts + 1;
    a.(attempts := n, lockedUntil := if n >= l.maxAttempts then Some(now + l.lockoutMins * MINUTE) else a.lockedUntil)
  }

  function ExpiryFrom(l: Limits, now: int): Option<int> {
    if l.expiryDays.Some? then Some(now + l.expiryDays.value * DAY) else None
  }

  function AfterOp(l: Limits, a: Account, op: Op): Account {
    match op
    case Lock => Stored(a, a.(isLocked := true, lockedUntil := None), false)
    case Unlock => Stored(a, a.(isLocked := false, lockedUntil := None, attempts := 0), false)
    case Reset(now, temporary) =>
      Stored(a, a.(password := temporary, isLocked := false, lockedUntil := None, attempts := 0,
                   expires := ExpiryFrom(l, now)), false)
    case Login(now, given, lost) =>
      match AnswerTo(a, now, given)
      case Wrong => Stored(a, AfterWrong(l, a, now), lost)
      case Expired => Stored(a, a.(attempts := 0, lockedUntil := None), lost)
      case Welcome => Stored(a, a.(attempts := 0, lockedUntil := None), lost)
      case _ => a
  }

  class LoginGuard {
    const limits: Limits
    const org: Option<Id>
    const active: bool
    // the stored row
    var password: string
    var attempts: nat
    var isLocked: bool
    var lockedUntil: Option<int>
    var expires: Option<int>

    constructor (limits: Limits, a: Account)
      ensures this.limits == limits && Row() == a
    {
      this.limits, org, active, password := limits, a.org, a.active, a.password;
      attempts, isLocked, lockedUntil, expires := a.attempts, a.isLocked, a.lockedUntil, a.expires;
    }

    ghost function Row(): Account
      reads this
    { Account(org, active, password, attempts, isLocked, lockedUntil, expires) }

    method Update(user: Account, lost: bool)
      requires user.org == org && user.active == active
      modifies this
      ensures Row() == Stored(old(Row()), user, lost)
    {
      if org.Some? && !lost {
        password, attempts, isLocked, lockedUntil := user.password, user.attempts, user.isLocked, user.lockedUntil;
        expires := user.expires;
      }
    }

    method Read() returns (user: Account)
      ensures user == Row()
    { user := Account(org, active, password, attempts, isLocked, lockedUntil, expires); }

    method LoginWithOrg(now: int, given: string, lost: bool) returns (answer: Answer)
      modifies this
      ensures answer == AnswerTo(old(Row()), now, given)
      ensures answer == Welcome ==> OpenTo(old(Row()), now) && given == old(password)
      ensures Row() == AfterOp(limits, old(Row()), Login(now, given, lost))
    {
      var user := Read();
      if !user.active { return Inactive; }
      if user.isLocked { return LockedByAdmin; }
      if user.lockedUntil.Some? {
        if user.lockedUntil.value > now { return LockedForNow; }
      }
      if given != user.password {
        user := user.(attempts := user.attempts + 1);
        if user.attempts >= limits.maxAttempts {
          user := user.(lockedUntil := Some(now + limits.lockoutMins * MINUTE));
        }
        Update(user, lost);
        return Wrong;
      }
      user := user.(attempts := 0, lockedUntil := None);
      Update(user, lost);
      if user.expires.Some? {
        if user.expires.value < now { return Expired; }
      }
      return Welcome;
    }

    method LockUser()
      modifies this
      ensures Row() == AfterOp(limits, old(Row()), Lock)
    {
      var user := Read();
      Update(user.(isLocked := true, lockedUntil := None), false);
    }

    method UnlockUser()
      modifies this
      ensures Row() == AfterOp(limits, old(Row()), Unlock)
    {
      var user := Read();
      Update(user.(isLocked := false, lockedUntil := None, attempts := 0), false);
    }

    method ResetPassword(now: int, temporary: string)
      modifies this
      ensures Row() == AfterOp(limits, old(Row()), Reset(now, temporary))
    {
      var user := Read();
      user := user.(password := temporary, attempts := 0, isLocked := false, lockedUntil := None);
      user := user.(expires := if limits.expiryDays.Some? then Some(now + limits.expiryDays.value * DAY) else None);
      Update(user, false);
    }
  }

  // ---------- runs ----------

  function After(l: Limits, a: Account, ops: seq<Op>, n: nat): Account
    requires n <= |ops|
  { At((a: Account, op: Op) => AfterOp(l, a, op), a, ops, n) }

  predicate Fails(a: Account, op: Op) { op.Login? && AnswerTo(a, op.now, op.given).Wrong? }

  /** The moments of the failed comparisons among the first n operations. */
  function Compared(l: Limits, a: Account, ops: seq<Op>, n: nat): seq<int>
    requires n <= |ops|
  {
    if n == 0 then []
    else Compared(l, a, ops, n - 1) + if Fails(After(l, a, ops, n - 1), ops[n - 1]) then [ops[n - 1].now] else []
  }

  /** Those of them that were stored. */
  function Failures(l: Limits, a: Account, ops: seq<Op>, n: nat): seq<int>
    requires n <= |ops|
  {
    if n == 0 then []
    else
      Failures(l, a, ops, n - 1)
        + if Fails(After(l, a, ops, n - 1), ops[n - 1]) && a.org.Some? && !ops[n - 1].lost then [ops[n - 1].now] else []
  }

  /** Every failed comparison among the first n operations was stored. */
  ghost predicate NoneLost(l: Limits, a: Account, ops: seq<Op>, n: nat)
    requires n <= |ops|
  {
    n == 0 || (NoneLost(l, a, ops, n - 1)
               && (Fails(After(l, a, ops, n - 1), ops[n - 1]) ==> a.org.Some? && !ops[n - 1].lost))
  }

  /** Failed comparisons that are not stored cost the caller nothing: all of them are stored exactly if
      the user has an organisation and no write got lost. */
  lemma {:induction false} ComparedIsStoredIff(l: Limits, a: Account, ops: seq<Op>, n: nat)
    requires n <= |ops|
    ensures |Failures(l, a, ops, n)| <= |Compared(l, a, ops, n)|
    ensures |Failures(l, a, ops, n)| == |Compared(l, a, ops, n)| <==> NoneLost(l, a, ops, n)
    ensures NoneLost(l, a, ops, n) ==> Failures(l, a, ops, n) == Compared(l, a, ops, n)
  {
    if n > 0 { ComparedIsStoredIff(l, a, ops, n - 1); }
  }

  /** No success, no unlock, no reset. (An administrator's lock may come at any time.) */
  ghost predicate Hammering(l: Limits, a: Account, ops: seq<Op>, n: nat)
    requires n <= |ops|
  {
    forall k: nat | k < n :: !ops[k].Unlock? && !ops[k].Reset? && (ops[k].Login? ==> ops[k].given != a.password)
  }

  ghost predicate Clear(a: Account) { a.org.Some? && a.attempts == 0 && !a.isLocked && a.lockedUntil.None? }

  /** The row remembers the stored failures: how many, and from the limit on when the last one was. */
  ghost predicate Remembers(l: Limits, start: Account, a: Account, fails: seq<int>) {
    && a.org == start.org && a.password == start.password
    && a.attempts == |fails|
    && (fails != [] && |fails| >= l.maxAttempts && !a.isLocked ==>
          a.lockedUntil == Some(fails[|fails| - 1] + l.lockoutMins * MINUTE))
    && (forall k | l.maxAttempts <= k < |fails| && k > 0 :: fails[k] >= fails[k - 1] + l.lockoutMins * MINUTE)
  }

  lemma OneMoreRemembers(l: Limits, start: Account, a: Account, fails: seq<int>, op: Op)
    requires start.org.Some? && Remembers(l, start, a, fails)
    requires !op.Unlock? && !op.Reset? && (op.Login? ==> op.given != start.password)
    ensures Remembers(l, start, AfterOp(l, a, op),
                      fails + if Fails(a, op) && start.org.Some? && !op.lost then [op.now] else [])
  {}

  lemma {:induction false} RowRemembers(l: Limits, a: Account, ops: seq<Op>, n: nat)
    requires n <= |ops| && Clear(a) && Hammering(l, a, ops, n)
    ensures Remembers(l, a, After(l, a, ops, n), Failures(l, a, ops, n))
  {
    if n > 0 {
      RowRemembers(l, a, ops, n - 1);
      OneMoreRemembers(l, a, After(l, a, ops, n - 1), Failures(l, a, ops, n - 1), ops[n - 1]);
    }
  }

  /** The k-th stored failed comparison comes no earlier than (k - M) lockouts after the M-th; by
      ComparedIsStoredIff that is the k-th failed comparison as long as no write gets lost. */
  lemma {:induction false} GuessingIsSlow(l: Limits, a: Account, ops: seq<Op>, k: nat)
    requires Clear(a) && Hammering(l, a, ops, |ops|) && l.maxAttempts >= 1
    requires l.maxAttempts <= k <= |Failures(l, a, ops, |ops|)|
    ensures var fails := Failures(l, a, ops, |ops|);
      fails[k - 1] >= fails[l.maxAttempts - 1] + (k - l.maxAttempts) * (l.lockoutMins * MINUTE)
    decreases k
  {
    RowRemembers(l, a, ops, |ops|);
    if k > l.maxAttempts {
      GuessingIsSlow(l, a, ops, k - 1);
      var d := l.lockoutMins * MINUTE;
      assert (k - l.maxAttempts) * d == (k - 1 - l.maxAttempts) * d + d;
    }
  }

  /** While the lock lasts nothing is compared and nothing changes, whatever is typed. */
  lemma LockedMeansNoComparison(l: Limits, a: Account, now: int, given: string)
    requires a.active && (a.isLocked || (a.lockedUntil.Some? && now < a.lockedUntil.value))
    ensures !AnswerTo(a, now, given).Wrong? && !AnswerTo(a, now, given).Welcome?
    ensures !AnswerTo(a, now, given).Expired? && forall lost :: AfterOp(l, a, Login(now, given, lost)) == a
  {}

  /** The bound is a matter of having an organisation: for a user without one nothing is ever stored,
      and every wrong guess is compared, all at the same instant if need be. */
  lemma {:induction false} WithoutOrgEveryGuessCounts(l: Limits, a: Account, ops: seq<Op>, n: nat)
    requires n <= |ops| && a.org.None? && a.active && !a.isLocked && a.lockedUntil.None?
    requires forall k: nat | k < n :: ops[k].Login? && ops[k].given != a.password
    ensures After(l, a, ops, n) == a && Failures(l, a, ops, n) == []
    ensures |Compared(l, a, ops, n)| == n && forall k | 0 <= k < n :: Compared(l, a, ops, n)[k] == ops[k].now
  {
    if n > 0 { WithoutOrgEveryGuessCounts(l, a, ops, n - 1); }
  }

  // ---------- what the answer means ----------

  /** The account can be logged into at this moment, if the password is right. */
  predicate OpenTo(a: Account, now: int) {
    a.active && !a.isLocked && (a.lockedUntil.None? || a.lockedUntil.value <= now)
  }

  /** Which answer comes when. */
  lemma AnswerMeans(a: Account, now: int, given: string)
    ensures AnswerTo(a, now, given) == Welcome <==>
      OpenTo(a, now) && given == a.password && (a.expires.None? || now <= a.expires.value)
    ensures AnswerTo(a, now, given) == Expired <==>
      OpenTo(a, now) && given == a.password && a.expires.Some? && a.expires.value < now
    ensures AnswerTo(a, now, given) == Wrong <==> OpenTo(a, now) && given != a.password
    ensures AnswerTo(a, now, given) == Inactive <==> !a.active
    ensures AnswerTo(a, now, given) == LockedByAdmin <==> a.active && a.isLocked
    ensures AnswerTo(a, now, given) == LockedForNow <==>
      a.active && !a.isLocked && a.lockedUntil.Some? && now < a.lockedUntil.value
  {}

  // ---------- any run ----------

  /** The call reaches the row and clears the counter: the right password, an unlock, a reset. */
  predicate Clears(a: Account, op: Op) {
    a.org.Some? && match op
      case Login(now, given, lost) => OpenTo(a, now) && given == a.password && !lost
      case Lock => false
      case Unlock => true
      case Reset(_, _) => true
  }

  /** The call is a wrong password that is counted. */
  predicate Counts(a: Account, op: Op) {
    a.org.Some? && op.Login? && OpenTo(a, op.now) && op.given != a.password && !op.lost
  }

  /** The moments of the counted failures since the counter was last cleared. */
  function Since(l: Limits, a: Account, ops: seq<Op>, n: nat): seq<int>
    requires n <= |ops|
  {
    if n == 0 then []
    else
      var row, op, before := After(l, a, ops, n - 1), ops[n - 1], Since(l, a, ops, n - 1);
      if Clears(row, op) then [] else if Counts(row, op) then before + [op.now] else before
  }

  /** An administrator's lock has come since the last counted failure. */
  function LockedSince(l: Limits, a: Account, ops: seq<Op>, n: nat): bool
    requires n <= |ops|
  {
    n > 0 &&
    var row, op := After(l, a, ops, n - 1), ops[n - 1];
    (op.Lock? && a.org.Some?) || (!Clears(row, op) && !Counts(row, op) && LockedSince(l, a, ops, n - 1))
  }

  /** The administrator's flag: as the last lock, unlock or reset left it. */
  function AdminLock(a: Account, ops: seq<Op>, n: nat): bool
    requires n <= |ops|
  {
    if n == 0 then a.isLocked
    else if a.org.None? || ops[n - 1].Login? then AdminLock(a, ops, n - 1)
    else ops[n - 1].Lock?
  }

  /** The row that a history of calls adds up to. */
  ghost predicate AddsUpTo(l: Limits, start: Account, row: Account, since: seq<int>, lockedSince: bool, admin: bool) {
    && row.org == start.org && row.active == start.active
    && row.attempts == |since|
    && row.isLocked == admin
    && row.lockedUntil == (if since != [] && |since| >= l.maxAttempts && !lockedSince
                           then Some(since[|since| - 1] + l.lockoutMins * 60_000_000_000) else None)
  }

  lemma OneMoreCounted(l: Limits, start: Account, row: Account, since: seq<int>, lockedSince: bool, admin: bool, op: Op)
    requires AddsUpTo(l, start, row, since, lockedSince, admin)
    ensures AddsUpTo(l, start, AfterOp(l, row, op),
      if Clears(row, op) then [] else if Counts(row, op) then since + [op.now] else since,
      (op.Lock? && start.org.Some?) || (!Clears(row, op) && !Counts(row, op) && lockedSince),
      if start.org.None? || op.Login? then admin else op.Lock?)
  {}

  /** Over any run of logins, right and wrong, locks, unlocks and resets, with any update lost: the
      counter is the number of failures counted since it was last cleared, and the row holds a timed
      lock, to the end of the last one's lockout, exactly if they reached the limit and no
      administrator's lock took its place. */
  lemma {:induction false} CounterOverRuns(l: Limits, a: Account, ops: seq<Op>, n: nat)
    requires n <= |ops| && a.attempts == 0 && a.lockedUntil.None?
    ensures AddsUpTo(l, a, After(l, a, ops, n), Since(l, a, ops, n), LockedSince(l, a, ops, n), AdminLock(a, ops, n))
  {
    if n > 0 {
      CounterOverRuns(l, a, ops, n - 1);
      OneMoreCounted(l, a, After(l, a, ops, n - 1), Since(l, a, ops, n - 1), LockedSince(l, a, ops, n - 1),
        AdminLock(a, ops, n - 1), ops[n - 1]);
    }
  }

  /** The password and its expiry are those of the last reset that reached the row. */
  lemma {:induction false} PasswordOverRuns(l: Limits, a: Account, ops: seq<Op>, k: nat, n: nat)
    requires k <= n <= |ops| && (k > 0 ==> ops[k - 1].Reset? && a.org.Some?)
    requires forall j | k <= j < n :: !ops[j].Reset? || a.org.None?
    ensures var row := After(l, a, ops, n);
      && row.org == a.org
      && row.password == (if k == 0 then a.password else ops[k - 1].temporary)
      && row.expires == (if k == 0 then a.expires
                         else if l.expiryDays.None? then None
                         else Some(ops[k - 1].now + l.expiryDays.value * 86_400_000_000_000))
    decreases n
  {
    if n > k { PasswordOverRuns(l, a, ops, k, n - 1); }
    else if n > 0 { OrgStays(l, a, ops, n - 1); }
  }

  lemma {:induction false} OrgStays(l: Limits, a: Account, ops: seq<Op>, n: nat)
    requires n <= |ops|
    ensures After(l, a, ops, n).org == a.org
  {
    if n > 0 { OrgStays(l, a, ops, n - 1); }
  }

  /** In particular a success starts over: fewer failures than the limit since then lock nobody out. */
  lemma BelowTheLimitNoLock(l: Limits, a: Account, ops: seq<Op>, n: nat)
    requires n <= |ops| && a.attempts == 0 && a.lockedUntil.None? && |Since(l, a, ops, n)| < l.maxAttempts
    ensures After(l, a, ops, n).lockedUntil.None?
  {
    CounterOverRuns(l, a, ops, n);
  }

  /** The smallest case: two wrong passwords of three, a right one, another wrong one. One is counted,
      nobody is locked out; two more, and the lock lasts its thirty minutes from the last. */
  lemma SuccessStartsOver()
    ensures var l, a := Limits(3, 30, None), Account(Some(1), true, "right", 0, false, None, None);
      var wrong, right := Login(100, "wrong", false), Login(100, "right", false);
      var row := AfterOp(l, AfterOp(l, AfterOp(l, AfterOp(l, a, wrong), wrong), right), wrong);
      && row == a.(attempts := 1)
      && AfterOp(l, AfterOp(l, row, wrong), wrong) == a.(attempts := 3, lockedUntil := Some(1_800_000_000_100))
  {
    assert "wrong"[0] != "right"[0];
  }
}

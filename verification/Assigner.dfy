/** Who gets the next task: the active user of the role with the fewest pending ones. */
module Assigner {
  import opened Prelude

  datatype User = User(org: Id, role: Option<string>, active: bool)

  datatype TaskStatus = Waiting | Working | Done | Skipped // pending, in_progress, completed, skipped

  /** Tasks and users are never deleted here: position is identity, and for users it is also seniority. */
  datatype Task = Task(instance: nat, step: Id, assignee: nat, status: TaskStatus)

  predicate Candidate(users: seq<User>, org: Id, role: string, u: nat) {
    u < |users| && users[u].active && users[u].org == org && users[u].role == Some(role)
  }

  /** COUNT of the tasks assigned to u that are pending. */
  function Load(tasks: seq<Task>, u: nat): nat {
    if tasks == [] then 0
    else
      var t := tasks[|tasks| - 1];
      Load(tasks[..|tasks| - 1], u) + if t.assignee == u && t.status == Waiting then 1 else 0
  }

  /** GetUserWithFewestTasksByRole, among the n most senior users: least loaded, seniority breaking ties. */
  function Fewest(users: seq<User>, tasks: seq<Task>, org: Id, role: string, n: nat): (r: Option<nat>)
    requires n <= |users|
    ensures r.Some? ==> r.value < n && Candidate(users, org, role, r.value)
    ensures r.Some? ==> forall u | 0 <= u < n && Candidate(users, org, role, u) ::
      Load(tasks, r.value) <= Load(tasks, u) && (u < r.value ==> Load(tasks, r.value) < Load(tasks, u))
    ensures r.None? ==> forall u | 0 <= u < n :: !Candidate(users, org, role, u)
  {
    if n == 0 then None
    else
      var best := Fewest(users, tasks, org, role, n - 1);
      if Candidate(users, org, role, n - 1) && (best.Some? ==> Load(tasks, n - 1) < Load(tasks, best.value))
      then Some(n - 1) else best
  }

  /** The answer to the query for the j-th role; a query that fails is taken for one without rows. */
  function Asked(users: seq<User>, tasks: seq<Task>, org: Id, roles: seq<string>, unanswered: set<nat>,
                 j: nat): Option<nat>
    requires j < |roles|
  { if j in unanswered then None else Fewest(users, tasks, org, roles[j], |users|) }

  /** determineAssignee from the k-th role on: the answer for the first role that has one. */
  function AssigneeFrom(users: seq<User>, tasks: seq<Task>, org: Id, roles: seq<string>, unanswered: set<nat>,
                        k: nat): (r: Option<nat>)
    requires k <= |roles|
    ensures r.Some? ==> exists j | k <= j < |roles| ::
      Asked(users, tasks, org, roles, unanswered, j) == r
      && forall i | k <= i < j :: Asked(users, tasks, org, roles, unanswered, i).None?
    ensures r.None? ==> forall j | k <= j < |roles| :: Asked(users, tasks, org, roles, unanswered, j).None?
    decreases |roles| - k
  {
    if k == |roles| then None
    else
      var u := Asked(users, tasks, org, roles, unanswered, k);
      if u.Some? then u else AssigneeFrom(users, tasks, org, roles, unanswered, k + 1)
  }

  function AssigneeFor(users: seq<User>, tasks: seq<Task>, org: Id, roles: seq<string>,
                       unanswered: set<nat>): Option<nat> {
    AssigneeFrom(users, tasks, org, roles, unanswered, 0)
  }

  /** With every query answered, somebody is found exactly if some role has anybody. */
  lemma SomebodyIsFoundIff(users: seq<User>, tasks: seq<Task>, org: Id, roles: seq<string>)
    ensures AssigneeFor(users, tasks, org, roles, {}).Some? <==>
      exists role, u | role in roles && 0 <= u < |users| :: Candidate(users, org, role, u)
  {
    if role, u :| role in roles && 0 <= u < |users| && Candidate(users, org, role, u) {
      var j :| 0 <= j < |roles| && roles[j] == role;
      assert Asked(users, tasks, org, roles, {}, j).Some?;
    }
    if AssigneeFor(users, tasks, org, roles, {}).Some? {
      var j :| 0 <= j < |roles| && Asked(users, tasks, org, roles, {}, j).Some?;
      assert roles[j] in roles;
    }
  }

  lemma LoadOneMore(tasks: seq<Task>, t: Task, u: nat)
    ensures Load(tasks + [t], u) == Load(tasks, u) + if t.assignee == u && t.status == Waiting then 1 else 0
  {
    assert (tasks + [t])[..|tasks|] == tasks;
  }

  // ---------- one assignment ----------

  ghost predicate AllEven(users: seq<User>, tasks: seq<Task>, org: Id, role: string) {
    forall u, v | Candidate(users, org, role, u) && Candidate(users, org, role, v) :: Load(tasks, u) == Load(tasks, v)
  }

  /** The heaviest load among the first n users that are candidates. */
  function Peak(users: seq<User>, tasks: seq<Task>, org: Id, role: string, n: nat): (m: nat)
    requires n <= |users|
    ensures forall u | 0 <= u < n && Candidate(users, org, role, u) :: Load(tasks, u) <= m
    ensures m == 0 || exists u | 0 <= u < n && Candidate(users, org, role, u) :: Load(tasks, u) == m
  {
    if n == 0 then 0
    else
      var rest := Peak(users, tasks, org, role, n - 1);
      if Candidate(users, org, role, n - 1) && Load(tasks, n - 1) >= rest then Load(tasks, n - 1) else rest
  }

  /** Whatever was completed in between, an assignment makes the busiest busier only when there was
      no one less busy to give the task to. */
  lemma PeakRisesOnlyFromEven(users: seq<User>, tasks: seq<Task>, org: Id, role: string, t: Task)
    requires Fewest(users, tasks, org, role, |users|) == Some(t.assignee) && t.status == Waiting
    ensures Peak(users, tasks + [t], org, role, |users|) > Peak(users, tasks, org, role, |users|)
      <==> AllEven(users, tasks, org, role)
  {
    forall u ensures Load(tasks + [t], u) == Load(tasks, u) + if t.assignee == u then 1 else 0
    { LoadOneMore(tasks, t, u); }
    assert Candidate(users, org, role, t.assignee);
    var before, after := Peak(users, tasks, org, role, |users|), Peak(users, tasks + [t], org, role, |users|);
    if AllEven(users, tasks, org, role) {
      assert Load(tasks + [t], t.assignee) <= after;
      assert before == 0 || exists v | 0 <= v < |users| && Candidate(users, org, role, v) :: Load(tasks, v) == before;
    } else {
      var top :| 0 <= top < |users| && Candidate(users, org, role, top) && Load(tasks + [t], top) == after;
      var u, v :| Candidate(users, org, role, u) && Candidate(users, org, role, v) && Load(tasks, u) < Load(tasks, v);
      assert Load(tasks, t.assignee) <= Load(tasks, u);
      assert Load(tasks, v) <= before && Load(tasks, top) <= before;
    }
  }

  // ---------- many assignments ----------

  function Headcount(users: seq<User>, org: Id, role: string, n: nat): nat
    requires n <= |users|
  { if n == 0 then 0 else Headcount(users, org, role, n - 1) + if Candidate(users, org, role, n - 1) then 1 else 0 }

  function TotalLoad(users: seq<User>, tasks: seq<Task>, org: Id, role: string, n: nat): nat
    requires n <= |users|
  {
    if n == 0 then 0
    else
      TotalLoad(users, tasks, org, role, n - 1) + if Candidate(users, org, role, n - 1) then Load(tasks, n - 1) else 0
  }

  /** k tasks handed out one after the other, none completed in between. */
  function HandOut(users: seq<User>, tasks: seq<Task>, org: Id, role: string, instance: nat, step: Id,
                   k: nat): seq<Task> {
    if k == 0 then tasks
    else
      var before := HandOut(users, tasks, org, role, instance, step, k - 1);
      var u := Fewest(users, before, org, role, |users|);
      if u.None? then before else before + [Task(instance, step, u.value, Waiting)]
  }

  lemma {:induction false} TotalOneMore(users: seq<User>, tasks: seq<Task>, org: Id, role: string, t: Task, n: nat)
    requires n <= |users| && Candidate(users, org, role, t.assignee) && t.status == Waiting
    ensures TotalLoad(users, tasks + [t], org, role, n)
      == TotalLoad(users, tasks, org, role, n) + if t.assignee < n then 1 else 0
  {
    if n > 0 {
      TotalOneMore(users, tasks, org, role, t, n - 1);
      LoadOneMore(tasks, t, n - 1);
    }
  }

  lemma OneMoreTimes(c: nat, x: nat)
    ensures (c + 1) * x == c * x + x
  {}

  /** Nobody above top, and somebody below it: less than top each. */
  lemma {:induction false} TotalBelow(users: seq<User>, tasks: seq<Task>, org: Id, role: string, top: nat, n: nat)
    requires n <= |users|
    requires forall u | 0 <= u < n && Candidate(users, org, role, u) :: Load(tasks, u) <= top
    ensures TotalLoad(users, tasks, org, role, n) <= Headcount(users, org, role, n) * top
    ensures (exists u | 0 <= u < n && Candidate(users, org, role, u) :: Load(tasks, u) < top) ==>
      TotalLoad(users, tasks, org, role, n) < Headcount(users, org, role, n) * top
  {
    if n > 0 {
      TotalBelow(users, tasks, org, role, top, n - 1);
      OneMoreTimes(Headcount(users, org, role, n - 1), top);
    }
  }

  /** Nobody below low, and somebody above it: more than low each. */
  lemma {:induction false} TotalAbove(users: seq<User>, tasks: seq<Task>, org: Id, role: string, low: nat, n: nat)
    requires n <= |users|
    requires forall u | 0 <= u < n && Candidate(users, org, role, u) :: low <= Load(tasks, u)
    ensures Headcount(users, org, role, n) * low <= TotalLoad(users, tasks, org, role, n)
    ensures (exists u | 0 <= u < n && Candidate(users, org, role, u) :: low < Load(tasks, u)) ==>
      Headcount(users, org, role, n) * low < TotalLoad(users, tasks, org, role, n)
  {
    if n > 0 {
      TotalAbove(users, tasks, org, role, low, n - 1);
      OneMoreTimes(Headcount(users, org, role, n - 1), low);
    }
  }

  /** The state handing out keeps: nobody is more than one task ahead, and every task was counted. */
  ghost predicate Levelled(users: seq<User>, tasks: seq<Task>, org: Id, role: string, total: nat) {
    && TotalLoad(users, tasks, org, role, |users|) == total
    && forall u, v | Candidate(users, org, role, u) && Candidate(users, org, role, v) ::
      Load(tasks, u) <= Load(tasks, v) + 1
  }

  lemma {:induction false} HandOutLevels(users: seq<User>, tasks: seq<Task>, org: Id, role: string,
                                         instance: nat, step: Id, k: nat)
    requires AllEven(users, tasks, org, role) && Headcount(users, org, role, |users|) > 0
    ensures Levelled(users, HandOut(users, tasks, org, role, instance, step, k), org, role,
      TotalLoad(users, tasks, org, role, |users|) + k)
  {
    if k > 0 {
      HandOutLevels(users, tasks, org, role, instance, step, k - 1);
      var before := HandOut(users, tasks, org, role, instance, step, k - 1);
      SomeoneCounts(users, org, role, |users|);
      var t := Task(instance, step, Fewest(users, before, org, role, |users|).value, Waiting);
      TotalOneMore(users, before, org, role, t, |users|);
      forall u ensures Load(before + [t], u) == Load(before, u) + if t.assignee == u then 1 else 0
      { LoadOneMore(before, t, u); }
    }
  }

  lemma {:induction false} SomeoneCounts(users: seq<User>, org: Id, role: string, n: nat)
    requires n <= |users| && Headcount(users, org, role, n) > 0
    ensures exists u | 0 <= u < n :: Candidate(users, org, role, u)
  {
    if !Candidate(users, org, role, n - 1) { SomeoneCounts(users, org, role, n - 1); }
  }

  lemma TimesGrows(n: nat, a: nat, b: nat)
    ensures a <= b ==> n * a <= n * b
  {}

  lemma Quotient(a: nat, n: nat, q: nat)
    requires n > 0 && n * q <= a < n * (q + 1)
    ensures a / n == q
  {
    var d := a / n;
    assert a == n * d + a % n && n * (d + 1) == n * d + n;
    TimesGrows(n, d + 1, q);
    TimesGrows(n, q + 1, d);
  }

  /** n people, base each to begin with, k more in all; one has `load`, nobody less than low and
      nobody more than low + 1. */
  lemma ShareOf(n: nat, base: nat, k: nat, low: nat, load: nat)
    requires n > 0 && base <= low && (load == low || load == low + 1)
    requires n * low <= n * base + k < n * (low + 1)
    requires load == low + 1 ==> n * low < n * base + k
    ensures load - base == k / n || load - base == (k + n - 1) / n
  {
    var share := low - base;
    assert n * low == n * base + n * share && n * (low + 1) == n * low + n;
    assert n * (share + 1) == n * share + n && n * (share + 2) == n * share + 2 * n;
    if load == low { Quotient(k, n, share); } else { Quotient(k + n - 1, n, share + 1); }
  }

  /** Fair shares: starting even at `base`, after k assignments every candidate has been given the
      k-th part of the work, rounded down or up. */
  lemma FairShares(users: seq<User>, tasks: seq<Task>, org: Id, role: string,
                   instance: nat, step: Id, k: nat, base: nat, u: nat)
    requires Candidate(users, org, role, u)
    requires forall v | Candidate(users, org, role, v) :: Load(tasks, v) == base
    ensures var n := Headcount(users, org, role, |users|);
      var given := Load(HandOut(users, tasks, org, role, instance, step, k), u) - base;
      n > 0 && (given == k / n || given == (k + n - 1) / n)
  {
    CandidateCounts(users, org, role, u, |users|);
    EvenTotal(users, tasks, org, role, base, |users|);
    HandOutLevels(users, tasks, org, role, instance, step, k);
    var after := HandOut(users, tasks, org, role, instance, step, k);
    forall v | Candidate(users, org, role, v) ensures Load(after, v) >= base {
      LowNotBelow(users, tasks, org, role, instance, step, k, base, v);
    }
    LevelledShare(users, after, org, role, base, k, u);
  }

  lemma LevelledShare(users: seq<User>, after: seq<Task>, org: Id, role: string, base: nat, k: nat, u: nat)
    requires Candidate(users, org, role, u) && Headcount(users, org, role, |users|) > 0
    requires forall v | Candidate(users, org, role, v) :: Load(after, v) >= base
    requires Levelled(users, after, org, role, Headcount(users, org, role, |users|) * base + k)
    ensures var n, given := Headcount(users, org, role, |users|), Load(after, u) - base;
      given == k / n || given == (k + n - 1) / n
  {
    var least := Fewest(users, after, org, role, |users|).value;
    var low := Load(after, least);
    TotalBelow(users, after, org, role, low + 1, |users|);
    TotalAbove(users, after, org, role, low, |users|);
    assert Candidate(users, org, role, least) && low <= Load(after, u) <= low + 1;
    ShareOf(Headcount(users, org, role, |users|), base, k, low, Load(after, u));
  }

  lemma {:induction false} CandidateCounts(users: seq<User>, org: Id, role: string, u: nat, n: nat)
    requires u < n <= |users| && Candidate(users, org, role, u)
    ensures Headcount(users, org, role, n) > 0
  {
    if u < n - 1 { CandidateCounts(users, org, role, u, n - 1); }
  }

  lemma {:induction false} EvenTotal(users: seq<User>, tasks: seq<Task>, org: Id, role: string, base: nat, n: nat)
    requires n <= |users| && forall u | Candidate(users, org, role, u) :: Load(tasks, u) == base
    ensures TotalLoad(users, tasks, org, role, n) == Headcount(users, org, role, n) * base
  {
    if n > 0 {
      EvenTotal(users, tasks, org, role, base, n - 1);
      assert (Headcount(users, org, role, n - 1) + 1) * base == Headcount(users, org, role, n - 1) * base + base;
    }
  }

  lemma {:induction false} LowNotBelow(users: seq<User>, tasks: seq<Task>, org: Id, role: string,
                                       instance: nat, step: Id, k: nat, base: nat, u: nat)
    requires Candidate(users, org, role, u) && Load(tasks, u) == base
    ensures Load(HandOut(users, tasks, org, role, instance, step, k), u) >= base
  {
    if k > 0 {
      LowNotBelow(users, tasks, org, role, instance, step, k - 1, base, u);
      var before := HandOut(users, tasks, org, role, instance, step, k - 1);
      var v := Fewest(users, before, org, role, |users|);
      if v.Some? { LoadOneMore(before, Task(instance, step, v.value, Waiting), u); }
    }
  }
}

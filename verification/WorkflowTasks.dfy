/** Who gets the tasks the engine creates, and what that means for the busiest over runs. */
module WorkflowTasks {
  import opened Prelude
  import opened Reservations
  import opened Assigner
  import opened WorkflowSteps
  import opened WorkflowRuns
  import opened Runs

  /** The tasks waiting for user u. */
  function WaitingFor(tasks: seq<Task>, u: nat): set<nat> {
    set t | 0 <= t < |tasks| && tasks[t].assignee == u && tasks[t].status == Waiting
  }

  lemma {:induction false} LoadIsWaiting(tasks: seq<Task>, u: nat)
    ensures Load(tasks, u) == |WaitingFor(tasks, u)|
  {
    if tasks != [] {
      var init, t := tasks[..|tasks| - 1], tasks[|tasks| - 1];
      LoadIsWaiting(init, u);
      var last: set<nat> := if t.assignee == u && t.status == Waiting then {|tasks| - 1} else {};
      assert WaitingFor(tasks, u) == WaitingFor(init, u) + last;
    }
  }

  /** An active user of the organisation with this role. */
  predicate Serves(users: seq<User>, org: Id, role: string, u: nat) {
    u < |users| && users[u].active && users[u].org == org && users[u].role == Some(role)
  }

  /** Nobody who serves has fewer tasks waiting than u, nobody more senior as few. */
  ghost predicate LeastBusy(users: seq<User>, tasks: seq<Task>, org: Id, role: string, u: nat) {
    && Serves(users, org, role, u)
    && forall v: nat | Serves(users, org, role, v) ::
         && |WaitingFor(tasks, u)| <= |WaitingFor(tasks, v)|
         && (v < u ==> |WaitingFor(tasks, u)| < |WaitingFor(tasks, v)|)
  }

  ghost predicate Nobody(users: seq<User>, org: Id, role: string) { forall u: nat :: !Serves(users, org, role, u) }

  /** u is the least busy of the first role in the list that was asked for and has anybody. */
  ghost predicate FirstChoice(users: seq<User>, tasks: seq<Task>, org: Id, roles: seq<string>, unanswered: set<nat>,
                              u: nat) {
    exists j :: 0 <= j < |roles| && j !in unanswered && LeastBusy(users, tasks, org, roles[j], u)
      && forall i | 0 <= i < j :: i in unanswered || Nobody(users, org, roles[i])
  }

  ghost predicate NoChoice(users: seq<User>, org: Id, roles: seq<string>, unanswered: set<nat>) {
    forall j | 0 <= j < |roles| :: j in unanswered || Nobody(users, org, roles[j])
  }

  lemma FewestIsLeastBusy(users: seq<User>, tasks: seq<Task>, org: Id, role: string)
    ensures var r := Fewest(users, tasks, org, role, |users|);
      if r.Some? then LeastBusy(users, tasks, org, role, r.value) else Nobody(users, org, role)
  {
    forall u ensures Load(tasks, u) == |WaitingFor(tasks, u)| { LoadIsWaiting(tasks, u); }
    forall u ensures Candidate(users, org, role, u) <==> Serves(users, org, role, u) {}
  }

  lemma AssigneeIsFirstChoice(users: seq<User>, tasks: seq<Task>, org: Id, roles: seq<string>, unanswered: set<nat>)
    ensures var r := AssigneeFor(users, tasks, org, roles, unanswered);
      if r.Some? then FirstChoice(users, tasks, org, roles, unanswered, r.value)
      else NoChoice(users, org, roles, unanswered)
  {
    var r := AssigneeFor(users, tasks, org, roles, unanswered);
    forall j | 0 <= j < |roles| && j !in unanswered
      ensures Asked(users, tasks, org, roles, unanswered, j).Some? ==>
        LeastBusy(users, tasks, org, roles[j], Asked(users, tasks, org, roles, unanswered, j).value)
      ensures Asked(users, tasks, org, roles, unanswered, j).None? ==> Nobody(users, org, roles[j])
    { FewestIsLeastBusy(users, tasks, org, roles[j]); }
    if r.Some? {
      var j :| 0 <= j < |roles| && Asked(users, tasks, org, roles, unanswered, j) == r
        && forall i | 0 <= i < j :: Asked(users, tasks, org, roles, unanswered, i).None?;
      assert j !in unanswered && LeastBusy(users, tasks, org, roles[j], r.value);
    }
  }

  // ---------- the engine's tasks ----------

  /** The task table after a call: the old tasks, at most one of them completed, and perhaps a new one. */
  ghost predicate TaskAdded(before: seq<Task>, after: seq<Task>, users: seq<User>, org: Id, i: nat, step: Id,
                            roles: seq<string>, unanswered: set<nat>) {
    && |after| == |before| + 1
    && var t := after[|before|];
       && t.instance == i && t.step == step && t.status == Waiting
       && FirstChoice(users, after[..|before|], org, roles, unanswered, t.assignee)
  }

  /** Starting an instance either creates no task, or one for its first step, and it goes to the first
      choice among those the first transition admits. */
  lemma StartAssigns(tpl: Template, users: seq<User>, w: World, org: Id, actor: nat, booking: Option<Id>,
                     f: StartFaults)
    ensures var after, first := Start(tpl, users, w, org, actor, booking, f).world, FirstAction(tpl, |tpl.transitions|);
      || after.tasks == w.tasks
      || (first.Some? && after.tasks[..|w.tasks|] == w.tasks
          && TaskAdded(w.tasks, after.tasks, users, org, |w.instances|, first.value.to, first.value.roles,
               f.unanswered))
  {
    var first := FirstAction(tpl, |tpl.transitions|);
    if first.Some? { AssigneeIsFirstChoice(users, w.tasks, org, first.value.roles, f.unanswered); }
  }

  /** What happens to the tasks there are: the newest active one of the instance is done, if it could be
      read, and all others are as they were. */
  ghost predicate ActiveCompleted(before: seq<Task>, after: seq<Task>, i: nat, readActive: bool) {
    && |after| == |before|
    && forall t | 0 <= t < |before| :: after[t] ==
         if !readActive && before[t].instance == i && (before[t].status == Waiting || before[t].status == Working)
              && forall s | t < s < |before| :: before[s].instance == i ==>
                   before[s].status != Waiting && before[s].status != Working
         then before[t].(status := Done) else before[t]
  }

  lemma TaskDoneMeans(w: World, i: nat, f: ActFaults)
    ensures ActiveCompleted(w.tasks, TaskDone(w, i, f).tasks, i, f.readActive)
  {}

  lemma ActTasksCreated(tpl: Template, users: seq<User>, w: World, c: Call, f: ActFaults)
    ensures var after, done := Act(tpl, users, w, c, f).world, TaskDone(w, c.instance, f).tasks;
      if |after.tasks| <= |w.tasks| then after.tasks == w.tasks || after.tasks == done
      else
        && c.instance < |w.instances| == |after.instances|
        && var inst := w.instances[c.instance];
           var t := FirstListed(tpl, inst.current, c.choice);
           && t.Some? && after.instances[c.instance].current == t.value.to
           && var u := AssigneeFor(users, done, inst.org, t.value.roles, f.unanswered);
              u.Some? && after.tasks == done + [Task(c.instance, t.value.to, u.value, Waiting)]
  {}

  /** An action either leaves the tasks, or completes the active one, or completes it and creates the one
      for the next step; that goes to the first choice among those the transition taken admits, counted
      after the old task is done. */
  lemma ActAssigns(tpl: Template, users: seq<User>, w: World, c: Call, f: ActFaults)
    ensures var after := Act(tpl, users, w, c, f).world;
      || after.tasks == w.tasks
      || ActiveCompleted(w.tasks, after.tasks, c.instance, f.readActive)
      || (c.instance < |w.instances| && c.instance < |after.instances|
          && var inst, t := w.instances[c.instance], FirstListed(tpl, w.instances[c.instance].current, c.choice);
             && t.Some? && |after.tasks| == |w.tasks| + 1
             && ActiveCompleted(w.tasks, after.tasks[..|w.tasks|], c.instance, f.readActive)
             && TaskAdded(w.tasks, after.tasks, users, inst.org, c.instance, t.value.to, t.value.roles, f.unanswered)
             && after.instances[c.instance].current == t.value.to)
  {
    var after, done := Act(tpl, users, w, c, f).world.tasks, TaskDone(w, c.instance, f).tasks;
    TaskDoneMeans(w, c.instance, f);
    ActTasksCreated(tpl, users, w, c, f);
    if |after| > |w.tasks| {
      var t := FirstListed(tpl, w.instances[c.instance].current, c.choice).value;
      assert after[..|w.tasks|] == done;
      AssigneeIsFirstChoice(users, done, w.instances[c.instance].org, t.roles, f.unanswered);
    }
  }

  /** Starting goes through, nothing failing, exactly if there is a first action and somebody to do it. */
  lemma StartIsGrantedIff(tpl: Template, users: seq<User>, w: World, org: Id, actor: nat, booking: Option<Id>)
    ensures var first := FirstAction(tpl, |tpl.transitions|);
      Start(tpl, users, w, org, actor, booking, StartFaults(false, false, false, {})).err.None? <==>
        first.Some? && exists role, u | role in first.value.roles :: Serves(users, org, role, u)
  {
    var first := FirstAction(tpl, |tpl.transitions|);
    if first.Some? {
      SomebodyIsFoundIff(users, w.tasks, org, first.value.roles);
      forall role, u ensures Candidate(users, org, role, u) <==> Serves(users, org, role, u) {}
    }
  }

  // ---------- the busiest, over runs ----------

  /** Nobody who serves has more than `most` tasks waiting. */
  ghost predicate NobodyAbove(users: seq<User>, tasks: seq<Task>, org: Id, role: string, most: nat) {
    forall u | Serves(users, org, role, u) :: |WaitingFor(tasks, u)| <= most
  }

  /** All the tasks waiting for the role are no more than `most` each would make. */
  predicate RoomForAll(users: seq<User>, tasks: seq<Task>, org: Id, role: string, most: nat) {
    TotalLoad(users, tasks, org, role, |users|) <= Headcount(users, org, role, |users|) * most
  }

  lemma AboveIffLoads(users: seq<User>, tasks: seq<Task>, org: Id, role: string, most: nat)
    ensures NobodyAbove(users, tasks, org, role, most) <==>
      forall u | Candidate(users, org, role, u) :: Load(tasks, u) <= most
  {
    forall u ensures Load(tasks, u) == |WaitingFor(tasks, u)| { LoadIsWaiting(tasks, u); }
    forall u ensures Candidate(users, org, role, u) <==> Serves(users, org, role, u) {}
  }

  /** No task more: what was bearable stays so. */
  lemma CompletingHelps(before: seq<Task>, after: seq<Task>, i: nat, readActive: bool, u: nat)
    requires ActiveCompleted(before, after, i, readActive)
    ensures |WaitingFor(after, u)| <= |WaitingFor(before, u)|
  {
    assert WaitingFor(after, u) <= WaitingFor(before, u);
    Fewer(WaitingFor(after, u), WaitingFor(before, u));
  }

  lemma Fewer(a: set<nat>, b: set<nat>)
    requires a <= b
    ensures |a| <= |b|
  {
    assert b == a + (b - a);
  }

  lemma EnoughMeansRoom(users: seq<User>, tasks: seq<Task>, org: Id, role: string, most: nat)
    requires NobodyAbove(users, tasks, org, role, most)
    ensures RoomForAll(users, tasks, org, role, most)
  {
    AboveIffLoads(users, tasks, org, role, most);
    TotalBelow(users, tasks, org, role, most, |users|);
  }

  lemma OneRoleEach(users: seq<User>, org: Id, role: string, org': Id, role': string, u: nat)
    requires Serves(users, org, role, u) && Serves(users, org', role', u)
    ensures org == org' && role == role'
  {}

  /** One more task for the least busy of some role: somebody of this role is over `most` afterwards
      only if together they were given more than `most` each. */
  lemma AddedIsBearableIff(users: seq<User>, tasks: seq<Task>, t: Task, org: Id, role: string, most: nat,
                           org': Id, roles: seq<string>, unanswered: set<nat>)
    requires NobodyAbove(users, tasks, org, role, most) && t.status == Waiting
    requires FirstChoice(users, tasks, org', roles, unanswered, t.assignee)
    ensures NobodyAbove(users, tasks + [t], org, role, most) <==> RoomForAll(users, tasks + [t], org, role, most)
  {
    if NobodyAbove(users, tasks + [t], org, role, most) {
      EnoughMeansRoom(users, tasks + [t], org, role, most);
    } else {
      AboveIffLoads(users, tasks, org, role, most);
      AboveIffLoads(users, tasks + [t], org, role, most);
      var u :| Candidate(users, org, role, u) && Load(tasks + [t], u) > most;
      LoadOneMore(tasks, t, u);
      assert u == t.assignee && Load(tasks, u) == most;
      var j :| 0 <= j < |roles| && j !in unanswered && LeastBusy(users, tasks, org', roles[j], u)
        && forall i | 0 <= i < j :: i in unanswered || Nobody(users, org', roles[i]);
      OneRoleEach(users, org, role, org', roles[j], u);
      LeastMeansAll(users, tasks, org, role, u, most);
      TotalOneMore(users, tasks, org, role, t, |users|);
    }
  }

  lemma LeastMeansAll(users: seq<User>, tasks: seq<Task>, org: Id, role: string, u: nat, least: nat)
    requires LeastBusy(users, tasks, org, role, u) && Load(tasks, u) == least
    ensures TotalLoad(users, tasks, org, role, |users|) >= Headcount(users, org, role, |users|) * least
  {
    forall v | 0 <= v < |users| && Candidate(users, org, role, v) ensures least <= Load(tasks, v) {
      LoadIsWaiting(tasks, u);
      LoadIsWaiting(tasks, v);
      assert Serves(users, org, role, v);
    }
    TotalAbove(users, tasks, org, role, least, |users|);
  }

  lemma CompletedIsBearable(users: seq<User>, before: seq<Task>, after: seq<Task>, i: nat, readActive: bool,
                            org: Id, role: string, most: nat)
    requires NobodyAbove(users, before, org, role, most) && ActiveCompleted(before, after, i, readActive)
    ensures NobodyAbove(users, after, org, role, most)
  {
    forall u | Serves(users, org, role, u) ensures |WaitingFor(after, u)| <= most {
      CompletingHelps(before, after, i, readActive, u);
    }
  }

  lemma StepIsBearableIff(tpl: Template, users: seq<User>, w: World, op: Op, org: Id, role: string, most: nat)
    requires NobodyAbove(users, w.tasks, org, role, most)
    ensures var after := Result(tpl, users, w, op).world.tasks;
      NobodyAbove(users, after, org, role, most) <==> RoomForAll(users, after, org, role, most)
  {
    var after, n := Result(tpl, users, w, op).world.tasks, |w.tasks|;
    match op
    case Submit(o, actor, booking, f) =>
      StartAssigns(tpl, users, w, o, actor, booking, f);
      if after == w.tasks {
        EnoughMeansRoom(users, after, org, role, most);
      } else {
        var first := FirstAction(tpl, |tpl.transitions|).value;
        assert after == w.tasks + [after[n]];
        AddedIsBearableIff(users, w.tasks, after[n], org, role, most, o, first.roles, f.unanswered);
      }
    case Process(c, f) =>
      ActAssigns(tpl, users, w, c, f);
      if after == w.tasks {
        EnoughMeansRoom(users, after, org, role, most);
      } else if ActiveCompleted(w.tasks, after, c.instance, f.readActive) {
        CompletedIsBearable(users, w.tasks, after, c.instance, f.readActive, org, role, most);
        EnoughMeansRoom(users, after, org, role, most);
      } else {
        var inst, t := w.instances[c.instance], FirstListed(tpl, w.instances[c.instance].current, c.choice).value;
        CompletedIsBearable(users, w.tasks, after[..n], c.instance, f.readActive, org, role, most);
        assert after == after[..n] + [after[n]];
        AddedIsBearableIff(users, after[..n], after[n], org, role, most, inst.org, t.roles, f.unanswered);
      }
  }

  /** Over every run of the engine, whatever fails: nobody of a role ever has more than `most` tasks
      waiting if and only if the role never has more waiting in all than `most` for each. A task is never
      given to somebody busy while a colleague could take it. */
  lemma BusiestOverRuns(tpl: Template, users: seq<User>, w: World, ops: seq<Op>, org: Id, role: string, most: nat)
    requires NobodyAbove(users, w.tasks, org, role, most)
    ensures GoodThroughout(Next(tpl, users), w, ops, (w: World) => NobodyAbove(users, w.tasks, org, role, most), |ops|)
      <==> SafeThroughout(Next(tpl, users), w, ops,
             (w, op) => RoomForAll(users, Next(tpl, users)(w, op).tasks, org, role, most), |ops|)
  {
    forall w: World, op | NobodyAbove(users, w.tasks, org, role, most)
      ensures NobodyAbove(users, Next(tpl, users)(w, op).tasks, org, role, most)
        <==> RoomForAll(users, Next(tpl, users)(w, op).tasks, org, role, most)
    { StepIsBearableIff(tpl, users, w, op, org, role, most); }
    GoodIffSafe(Next(tpl, users), w, ops, (w: World) => true,
      (w: World) => NobodyAbove(users, w.tasks, org, role, most),
      (w, op) => RoomForAll(users, Next(tpl, users)(w, op).tasks, org, role, most), |ops|);
  }
}

/** What every run of the workflow engine keeps, with writes failing wherever they may. */
module WorkflowRuns {
  import opened Prelude
  import opened Reservations
  import opened Assigner
  import opened WorkflowSteps
  import opened Runs

  /** Tasks and log entries belong to instances that exist. */
  ghost predicate Placed(w: World) {
    && (forall t | 0 <= t < |w.tasks| :: w.tasks[t].instance < |w.instances|)
    && (forall e | e in w.log :: e.instance < |w.instances|)
  }

  /** What one ProcessAction does to the instance and the log, whatever fails: nothing at all; or the
      instance moves and the entry is written; or the instance moves and the entry is missing. */
  lemma ActShape(tpl: Template, users: seq<User>, w: World, c: Call, f: ActFaults)
    ensures var r := Act(tpl, users, w, c, f);
      || (r.world == w && r.err.Some?)
      || (c.instance < |w.instances| && !Closed(w.instances[c.instance])
          && var inst, now := w.instances[c.instance], r.world.instances;
             && (c.action == "approve" || c.action == "reject")
             && |now| == |w.instances|
             && now == w.instances[c.instance :=
                  inst.(current := now[c.instance].current, status := now[c.instance].status)]
             && (Ends(tpl, inst.current, c.action) ==>
               now[c.instance].current == inst.current && Closed(now[c.instance]))
             && (!Ends(tpl, inst.current, c.action) ==> !Closed(now[c.instance]) && exists t | t in tpl.transitions ::
                   t.from == inst.current && t.to == now[c.instance].current)
             && r.world.log == (if r.err.Some? then w.log
                  else w.log + [Entry(c.instance, inst.current, now[c.instance].current, c.action, c.actor)]))
  {}

  // ---------- tasks ----------

  ghost predicate AtMostOneTask(tasks: seq<Task>) {
    forall a, b | 0 <= a < b < |tasks| && TaskActive(tasks[a]) && TaskActive(tasks[b]) ::
      tasks[a].instance != tasks[b].instance
  }

  lemma ActiveAppend(tasks: seq<Task>, t: Task, i: nat)
    ensures ActiveTask(tasks + [t], i) == if t.instance == i
      && TaskActive(t) then Some(|tasks|) else ActiveTask(tasks, i)
  {
    assert (tasks + [t])[..|tasks|] == tasks;
  }

  lemma ActiveDone(tasks: seq<Task>, i: nat, j: nat)
    requires AtMostOneTask(tasks) && ActiveTask(tasks, i).Some?
    ensures var a := ActiveTask(tasks, i).value;
      var after := tasks[a := tasks[a].(status := Done)];
      AtMostOneTask(after) && ActiveTask(after, j) == if i == j then None else ActiveTask(tasks, j)
  {
    var a := ActiveTask(tasks, i).value;
    var after := tasks[a := tasks[a].(status := Done)];
    var was, left := ActiveTask(tasks, j), ActiveTask(after, j);
    assert forall t | 0 <= t < |tasks| :: TaskActive(after[t]) <==> TaskActive(tasks[t]) && t != a;
    if i != j {
      assert was.Some? ==> TaskActive(after[was.value]) && after[was.value].instance == j;
      assert left.Some? ==> TaskActive(tasks[left.value]) && tasks[left.value].instance == j;
    }
  }

  lemma AppendKeepsOne(tasks: seq<Task>, t: Task)
    requires AtMostOneTask(tasks) && TaskActive(t)
    ensures AtMostOneTask(tasks + [t]) <==> ActiveTask(tasks, t.instance).None?
  {
    var after := tasks + [t];
    var a := ActiveTask(tasks, t.instance);
    if a.Some? { assert after[a.value].instance == after[|tasks|].instance; }
  }

  /** The one way to a second active task: the unchecked read fails while a task is active, and the
      instance then gets its next one. Everything here can be looked up before the call. */
  predicate DoublesTask(tpl: Template, users: seq<User>, w: World, op: Op) {
    && op.Process? && op.af.readActive
    && Refusal(tpl, users, w, op.call).None? && !op.af.updateStep && !op.af.createTask
    && ActiveTask(w.tasks, op.call.instance).Some?
    && var inst := w.instances[op.call.instance];
       && !Ends(tpl, inst.current, op.call.action)
       && AssigneeFor(users, w.tasks, inst.org, FirstListed(tpl, inst.current, op.call.choice).value.roles,
            op.af.unanswered).Some?
  }

  lemma StartTasks(tpl: Template, users: seq<User>, w: World, org: Id, actor: nat, booking: Option<Id>, f: StartFaults)
    requires Placed(w)
    ensures Placed(Start(tpl, users, w, org, actor, booking, f).world)
    ensures AtMostOneTask(w.tasks) ==> AtMostOneTask(Start(tpl, users, w, org, actor, booking, f).world.tasks)
  {
    var after := Start(tpl, users, w, org, actor, booking, f).world;
    if AtMostOneTask(w.tasks) && |after.tasks| > |w.tasks| { AppendKeepsOne(w.tasks, after.tasks[|w.tasks|]); }
  }

  /** The task table after ProcessAction: unchanged, or the active task done, and then perhaps one more. */
  lemma ActTasks(tpl: Template, users: seq<User>, w: World, c: Call, f: ActFaults)
    ensures var after, done := Act(tpl, users, w, c, f).world.tasks, TaskDone(w, c.instance, f).tasks;
      || after == w.tasks || after == done
      || (|after| == |done| + 1 && after == done + [after[|done|]]
          && after[|done|].instance == c.instance && TaskActive(after[|done|]))
    ensures |Act(tpl, users, w, c, f).world.tasks| > |w.tasks| ==>
      Act(tpl, users, w, c, f).world.tasks[..|w.tasks|] == TaskDone(w, c.instance, f).tasks
    ensures f.readActive && ActiveTask(w.tasks, c.instance).Some? ==>
      (|Act(tpl, users, w, c, f).world.tasks| > |w.tasks| <==> DoublesTask(tpl, users, w, Process(c, f)))
  {}

  lemma DoneStaysPlaced(w: World, i: nat, f: ActFaults)
    requires Placed(w)
    ensures forall t | t in TaskDone(w, i, f).tasks :: t.instance < |w.instances|
  {}

  lemma TasksPlaced(tpl: Template, users: seq<User>, w: World, c: Call, f: ActFaults)
    requires Placed(w) && c.instance < |w.instances|
    ensures forall t | t in Act(tpl, users, w, c, f).world.tasks :: t.instance < |w.instances|
  {
    ActTasks(tpl, users, w, c, f);
    DoneStaysPlaced(w, c.instance, f);
  }

  lemma ActPlaced(tpl: Template, users: seq<User>, w: World, c: Call, f: ActFaults)
    requires Placed(w)
    ensures Placed(Act(tpl, users, w, c, f).world)
  {
    ActShape(tpl, users, w, c, f);
    var after := Act(tpl, users, w, c, f).world;
    if c.instance < |w.instances| {
      TasksPlaced(tpl, users, w, c, f);
      assert forall t | 0 <= t < |after.tasks| :: after.tasks[t] in after.tasks;
    }
  }

  lemma ActKeepsOne(tpl: Template, users: seq<User>, w: World, c: Call, f: ActFaults)
    requires AtMostOneTask(w.tasks)
    ensures AtMostOneTask(Act(tpl, users, w, c, f).world.tasks) <==> !DoublesTask(tpl, users, w, Process(c, f))
  {
    ActTasks(tpl, users, w, c, f);
    var after, done, a := Act(tpl, users, w, c, f).world.tasks, TaskDone(w, c.instance, f).tasks,
      ActiveTask(w.tasks, c.instance);
    if a.Some? { ActiveDone(w.tasks, c.instance, c.instance); }
    if |after| > |w.tasks| { AppendKeepsOne(done, after[|done|]); }
  }

  lemma NextKeepsOne(tpl: Template, users: seq<User>, w: World, op: Op)
    requires Placed(w)
    ensures Placed(Result(tpl, users, w, op).world)
    ensures AtMostOneTask(w.tasks) ==>
      (AtMostOneTask(Result(tpl, users, w, op).world.tasks) <==> !DoublesTask(tpl, users, w, op))
  {
    match op
    case Submit(org, actor, booking, f) => StartTasks(tpl, users, w, org, actor, booking, f);
    case Process(c, f) =>
      ActPlaced(tpl, users, w, c, f);
      if AtMostOneTask(w.tasks) { ActKeepsOne(tpl, users, w, c, f); }
  }

  /** Over every run, with any write failing at any point: no instance ever has two active tasks,
      unless and until the unchecked read of the active task fails in a call that gets as far as
      creating the next one. */
  lemma TasksOverRuns(tpl: Template, users: seq<User>, w: World, ops: seq<Op>)
    requires Placed(w) && AtMostOneTask(w.tasks)
    ensures GoodThroughout(Next(tpl, users), w, ops, (w: World) => AtMostOneTask(w.tasks), |ops|)
      <==> SafeThroughout(Next(tpl, users), w, ops, (w, op) => !DoublesTask(tpl, users, w, op), |ops|)
  {
    forall w, op | Placed(w) ensures Placed(Next(tpl, users)(w, op)) && (AtMostOneTask(w.tasks) ==>
      (AtMostOneTask(Next(tpl, users)(w, op).tasks) <==> !DoublesTask(tpl, users, w, op)))
    { NextKeepsOne(tpl, users, w, op); }
    GoodIffSafe(Next(tpl, users), w, ops, (w: World) => Placed(w), (w: World) => AtMostOneTask(w.tasks),
      (w, op) => !DoublesTask(tpl, users, w, op), |ops|);
  }

  /** A template in three steps, and a manager who may do everything. */
  function ThreeSteps(): Template {
    Template(map[1 := StepRow(1, true, false), 2 := StepRow(2, false, false), 3 := StepRow(3, false, true)],
      [Transition(1, 2, "submit", ["manager"]), Transition(2, 3, "approve", ["manager"])])
  }

  function OneManager(): seq<User> { [User(1, Some("manager"), true)] }

  function InSecondStep(): World {
    World([Instance(1, 2, InProgress, None)], [Task(0, 2, 0, Waiting)], [Entry(0, 1, 2, "submit", 0)], map[])
  }

  /** The smallest case: an instance in its second step, with the one task it should have. Its
      approval, while that task cannot be read, leaves two. */
  lemma SecondTask()
    ensures var w := InSecondStep();
      var op := Process(Call(1, 0, "approve", 0, Some(0)),
        ActFaults(false, true, false, false, false, false, false, {}));
      && WellFormed(ThreeSteps()) && Placed(w) && AtMostOneTask(w.tasks)
      && Result(ThreeSteps(), OneManager(), w, op).err.None?
      && Result(ThreeSteps(), OneManager(), w, op).world.tasks == [Task(0, 2, 0, Waiting), Task(0, 3, 0, Waiting)]
      && !AtMostOneTask(Result(ThreeSteps(), OneManager(), w, op).world.tasks)
  {
    var w := InSecondStep();
    var op := Process(Call(1, 0, "approve", 0, Some(0)), ActFaults(false, true, false, false, false, false, false, {}));
    ApprovalListed();
    assert Fewest(OneManager(), w.tasks, 1, "manager", 1) == Some(0);
    assert AssigneeFor(OneManager(), w.tasks, 1, ["manager"], {}) == Some(0);
    var after := Result(ThreeSteps(), OneManager(), w, op).world;
    assert TaskActive(after.tasks[0]) && TaskActive(after.tasks[1])
      && after.tasks[0].instance == after.tasks[1].instance;
  }

  lemma ApprovalListed()
    ensures FirstListed(ThreeSteps(), 2, Some(0)) == Some(Transition(2, 3, "approve", ["manager"]))
  {
    var ts := ThreeSteps().transitions;
    assert ts[..1] == [ts[0]] && ts[..1][..0] == [];
    assert Where(ts[..1], Leaving(2)) == [];
    assert Outbound(ThreeSteps(), 2) == [ts[1]];
  }

  // ---------- calls that stop halfway ----------

  /** A call that gets past its checks and its first write and then fails, before its log entry is
      written. Everything here can be looked up before the call. */
  predicate Stops(tpl: Template, users: seq<User>, w: World, op: Op) {
    match op
    case Submit(org, _, _, f) =>
      var first := FirstAction(tpl, |tpl.transitions|);
      && first.Some? && !f.instance
      && (f.task || f.history || AssigneeFor(users, w.tasks, org, first.value.roles, f.unanswered).None?)
    case Process(c, f) =>
      && Refusal(tpl, users, w, c).None? && !f.updateStep
      && ((!f.readActive && ActiveTask(w.tasks, c.instance).Some? && f.completeTask)
          || (if Ends(tpl, w.instances[c.instance].current, c.action) then f.completeInstance
              else f.createTask || NextAssignee(tpl, users, w, c, f).None?)
          || c.actor >= |users| || f.createHistory)
  }

  function NextAssignee(tpl: Template, users: seq<User>, w: World, c: Call, f: ActFaults): Option<nat>
    requires Refusal(tpl, users, w, c).None? && !Ends(tpl, w.instances[c.instance].current, c.action)
  {
    var inst := w.instances[c.instance];
    AssigneeFor(users, TaskDone(w, c.instance, f).tasks, inst.org,
      FirstListed(tpl, inst.current, c.choice).value.roles, f.unanswered)
  }

  /** It is exactly the calls that stop halfway that fail and leave something behind. */
  lemma StopsMeans(tpl: Template, users: seq<User>, w: World, op: Op)
    requires WellFormed(tpl)
    ensures Stops(tpl, users, w, op) <==> Result(tpl, users, w, op).err.Some? && Result(tpl, users, w, op).world != w
  {
    match op
    case Submit(org, actor, booking, f) => StartStops(tpl, users, w, org, actor, booking, f);
    case Process(c, f) => ActStops(tpl, users, w, c, f);
  }

  lemma StartStops(tpl: Template, users: seq<User>, w: World, org: Id, actor: nat, booking: Option<Id>, f: StartFaults)
    ensures var r := Start(tpl, users, w, org, actor, booking, f);
      Stops(tpl, users, w, Submit(org, actor, booking, f)) <==> r.err.Some? && r.world != w
  {
    var r := Start(tpl, users, w, org, actor, booking, f);
    assert r.world == w || |r.world.instances| == |w.instances| + 1;
  }

  lemma ActStops(tpl: Template, users: seq<User>, w: World, c: Call, f: ActFaults)
    requires WellFormed(tpl)
    ensures var r := Act(tpl, users, w, c, f);
      Stops(tpl, users, w, Process(c, f)) <==> r.err.Some? && r.world != w
  {
    var r := Act(tpl, users, w, c, f);
    if Refusal(tpl, users, w, c).None? && !f.updateStep {
      var inst, now := w.instances[c.instance], r.world.instances[c.instance];
      assert !Closed(inst) && (Closed(now) || now.current != inst.current);
    }
  }

  /** How an instance reads that a call stopped at: rejected only as long as its completion is missing. */
  lemma StoppedReads(tpl: Template, users: seq<User>, w: World, c: Call, f: ActFaults)
    requires Stops(tpl, users, w, Process(c, f)) && Ends(tpl, w.instances[c.instance].current, c.action)
    ensures var now := Act(tpl, users, w, c, f).world.instances;
      && c.instance < |now|
      && now[c.instance].status == if c.action == "reject"
           && ((!f.readActive && ActiveTask(w.tasks, c.instance).Some? && f.completeTask) || f.completeInstance)
         then Rejected else Completed
  {}

  // ---------- the audit log is a walk ----------

  function OfInstance(i: nat): Entry -> bool { (e: Entry) => e.instance == i }

  /** GetByInstanceID. */
  function History(log: seq<Entry>, i: nat): seq<Entry> { Where(log, OfInstance(i)) }

  ghost predicate Begins(tpl: Template, e: Entry) {
    var t := FirstAction(tpl, |tpl.transitions|);
    t.Some? && e.from == t.value.from && e.to == t.value.to && e.action == t.value.action
  }

  ghost predicate Advances(tpl: Template, e: Entry) {
    e.action == "approve" && exists t | t in tpl.transitions :: t.from == e.from && t.to == e.to
  }

  ghost predicate Decides(tpl: Template, e: Entry) {
    e.action == "reject" || (e.action == "approve" && e.to in tpl.steps && tpl.steps[e.to].final)
  }

  /** A connected walk through the template: in by the first action, on along transitions, and a
      self-loop exactly where it closed. */
  ghost predicate IsWalk(tpl: Template, es: seq<Entry>, inst: Instance) {
    var n := |es|;
    && n > 0 && Begins(tpl, es[0])
    && (forall k | 0 < k < n :: es[k].from == es[k - 1].to)
    && (forall k | 0 < k < n && es[k].from != es[k].to :: Advances(tpl, es[k]))
    && (forall k | 0 <= k < n :: es[k].from == es[k].to <==> (k == n - 1 && Closed(inst)))
    && es[n - 1].to == inst.current
    && (Closed(inst) ==> Decides(tpl, es[n - 1]))
  }

  ghost predicate AllWalk(tpl: Template, w: World) {
    forall i | 0 <= i < |w.instances| :: IsWalk(tpl, History(w.log, i), w.instances[i])
  }

  lemma HistoryAppend(log: seq<Entry>, e: Entry, i: nat)
    ensures History(log + [e], i) == History(log, i) + if e.instance == i then [e] else []
  {
    WhereConcat(log, [e], OfInstance(i));
    assert [e][..0] == [];
  }

  lemma NoHistoryYet(w: World)
    requires Placed(w)
    ensures History(w.log, |w.instances|) == []
  {
    WhereNone(w.log, OfInstance(|w.instances|));
  }

  lemma WalkGoesOn(tpl: Template, es: seq<Entry>, inst: Instance, e: Entry, now: Instance)
    requires IsWalk(tpl, es, inst) && !Closed(inst) && e.from == inst.current && e.to == now.current
    requires if Closed(now) then e.from == e.to && Decides(tpl, e) else e.from != e.to && Advances(tpl, e)
    ensures IsWalk(tpl, es + [e], now)
  {}

  lemma WalkBreaks(tpl: Template, es: seq<Entry>, inst: Instance, now: Instance)
    requires IsWalk(tpl, es, inst) && !Closed(inst) && (Closed(now) || now.current != inst.current)
    ensures !IsWalk(tpl, es, now)
  {}

  /** What one InitiateWorkflow does to instances and log, whatever fails: nothing; or an instance
      without a log entry; or an instance and the entry for its first step. */
  lemma StartShape(tpl: Template, users: seq<User>, w: World, org: Id, actor: nat, booking: Option<Id>, f: StartFaults)
    ensures var r, first := Start(tpl, users, w, org, actor, booking, f), FirstAction(tpl, |tpl.transitions|);
      || (r.world == w && r.err.Some?)
      || (first.Some?
          && var inst := Instance(org, first.value.to, InProgress, booking);
             && r.world.instances == w.instances + [inst]
             && if r.err.Some? then r.world.log == w.log
                else r.world.log == w.log
                     + [Entry(|w.instances|, first.value.from, inst.current, first.value.action, actor)])
  {}

  lemma FirstEntryWalks(tpl: Template, e: Entry, inst: Instance)
    requires WellFormed(tpl) && Begins(tpl, e) && e.to == inst.current && !Closed(inst)
    ensures IsWalk(tpl, [e], inst)
  {
    assert FirstAction(tpl, |tpl.transitions|).value in tpl.transitions;
  }

  lemma OneMoreWalks(tpl: Template, w: World, after: World, inst: Instance, e: Entry)
    requires Placed(w) && AllWalk(tpl, w) && e.instance == |w.instances| && IsWalk(tpl, [e], inst)
    requires after.instances == w.instances + [inst] && after.log == w.log + [e]
    ensures AllWalk(tpl, after)
  {
    NoHistoryYet(w);
    forall i | 0 <= i < |after.instances| ensures IsWalk(tpl, History(after.log, i), after.instances[i]) {
      HistoryAppend(w.log, e, i);
      if i < |w.instances| { assert IsWalk(tpl, History(w.log, i), w.instances[i]); }
    }
  }

  lemma UnloggedBreaks(tpl: Template, w: World, after: World)
    requires Placed(w) && after.log == w.log && |after.instances| > |w.instances|
    ensures !AllWalk(tpl, after)
  {
    NoHistoryYet(w);
    assert !IsWalk(tpl, History(after.log, |w.instances|), after.instances[|w.instances|]);
  }

  lemma StartWalks(tpl: Template, users: seq<User>, w: World, org: Id, actor: nat, booking: Option<Id>, f: StartFaults)
    requires WellFormed(tpl) && Placed(w) && AllWalk(tpl, w)
    ensures AllWalk(tpl, Start(tpl, users, w, org, actor, booking, f).world)
      <==> !Stops(tpl, users, w, Submit(org, actor, booking, f))
  {
    var r := Start(tpl, users, w, org, actor, booking, f);
    StartShape(tpl, users, w, org, actor, booking, f);
    StopsMeans(tpl, users, w, Submit(org, actor, booking, f));
    if r.err.None? {
      var inst, e := r.world.instances[|w.instances|], r.world.log[|w.log|];
      FirstEntryWalks(tpl, e, inst);
      OneMoreWalks(tpl, w, r.world, inst, e);
    } else if r.world != w {
      UnloggedBreaks(tpl, w, r.world);
    }
  }

  lemma MoveLogged(tpl: Template, w: World, after: World, e: Entry, now: Instance)
    requires AllWalk(tpl, w) && e.instance < |w.instances| && IsWalk(tpl, History(w.log, e.instance) + [e], now)
    requires after.instances == w.instances[e.instance := now] && after.log == w.log + [e]
    ensures AllWalk(tpl, after)
  {
    forall i | 0 <= i < |after.instances| ensures IsWalk(tpl, History(after.log, i), after.instances[i]) {
      HistoryAppend(w.log, e, i);
      if i != e.instance { assert IsWalk(tpl, History(w.log, i), w.instances[i]); }
    }
  }

  lemma MoveUnlogged(tpl: Template, w: World, after: World, i: nat)
    requires AllWalk(tpl, w) && i < |w.instances| == |after.instances| && after.log == w.log && !Closed(w.instances[i])
    requires Closed(after.instances[i]) || after.instances[i].current != w.instances[i].current
    ensures !AllWalk(tpl, after)
  {
    assert IsWalk(tpl, History(w.log, i), w.instances[i]);
    WalkBreaks(tpl, History(w.log, i), w.instances[i], after.instances[i]);
    assert !IsWalk(tpl, History(after.log, i), after.instances[i]);
  }

  /** The entry of an action that went through continues the walk of its instance. */
  lemma ActExtends(tpl: Template, users: seq<User>, w: World, c: Call, f: ActFaults)
    requires WellFormed(tpl) && AllWalk(tpl, w) && Act(tpl, users, w, c, f).err.None?
    ensures c.instance < |w.instances| == |Act(tpl, users, w, c, f).world.instances|
    ensures var inst, now := w.instances[c.instance], Act(tpl, users, w, c, f).world.instances[c.instance];
      IsWalk(tpl, History(w.log, c.instance) + [Entry(c.instance, inst.current, now.current, c.action, c.actor)], now)
  {
    ActShape(tpl, users, w, c, f);
    var inst, now := w.instances[c.instance], Act(tpl, users, w, c, f).world.instances[c.instance];
    assert IsWalk(tpl, History(w.log, c.instance), inst);
    WalkGoesOn(tpl, History(w.log, c.instance), inst,
      Entry(c.instance, inst.current, now.current, c.action, c.actor), now);
  }

  lemma ActWalks(tpl: Template, users: seq<User>, w: World, c: Call, f: ActFaults)
    requires WellFormed(tpl) && Placed(w) && AllWalk(tpl, w)
    ensures AllWalk(tpl, Act(tpl, users, w, c, f).world) <==> !Stops(tpl, users, w, Process(c, f))
  {
    var r := Act(tpl, users, w, c, f);
    ActShape(tpl, users, w, c, f);
    StopsMeans(tpl, users, w, Process(c, f));
    if r.err.None? {
      ActExtends(tpl, users, w, c, f);
      var now := r.world.instances[c.instance];
      MoveLogged(tpl, w, r.world,
        Entry(c.instance, w.instances[c.instance].current, now.current, c.action, c.actor), now);
    } else if r.world != w {
      MoveUnlogged(tpl, w, r.world, c.instance);
    }
  }

  /** Over every run: every instance's history is a walk at every moment if and only if no call
      stops halfway. */
  lemma WalksOverRuns(tpl: Template, users: seq<User>, bookings: Bookings, ops: seq<Op>)
    requires WellFormed(tpl)
    ensures GoodThroughout(Next(tpl, users), World([], [], [], bookings), ops, (w: World) => AllWalk(tpl, w), |ops|)
      <==> SafeThroughout(Next(tpl, users), World([], [], [], bookings), ops,
           (w, op) => !Stops(tpl, users, w, op), |ops|)
  {
    forall w, op | Placed(w) ensures Placed(Next(tpl, users)(w, op)) && (AllWalk(tpl, w) ==>
      (AllWalk(tpl, Next(tpl, users)(w, op)) <==> !Stops(tpl, users, w, op)))
    {
      NextKeepsOne(tpl, users, w, op);
      if AllWalk(tpl, w) {
        match op
        case Submit(org, actor, booking, f) => StartWalks(tpl, users, w, org, actor, booking, f);
        case Process(c, f) => ActWalks(tpl, users, w, c, f);
      }
    }
    GoodIffSafe(Next(tpl, users), World([], [], [], bookings), ops, (w: World) => Placed(w),
      (w: World) => AllWalk(tpl, w), (w, op) => !Stops(tpl, users, w, op), |ops|);
  }

  lemma SubmissionListed()
    ensures FirstAction(ThreeSteps(), 2) == Some(Transition(1, 2, "submit", ["manager"]))
  {
    assert FirstAction(ThreeSteps(), 1) == Some(ThreeSteps().transitions[0]);
  }

  lemma SecondStepWalks()
    ensures AllWalk(ThreeSteps(), InSecondStep()) && Placed(InSecondStep())
  {
    var w := InSecondStep();
    SubmissionListed();
    FirstEntryWalks(ThreeSteps(), w.log[0], w.instances[0]);
    HistoryAppend([], w.log[0], 0);
    assert [] + [w.log[0]] == w.log;
  }

  /** The smallest case: an approval whose log entry cannot be written has moved the instance all the
      same, and its history no longer leads to where it is. */
  lemma HalfwayBreaksTheLog()
    ensures var w := InSecondStep();
      var c, f := Call(1, 0, "approve", 0, Some(0)), ActFaults(false, false, false, false, false, false, true, {});
      var r := Act(ThreeSteps(), OneManager(), w, c, f);
      && WellFormed(ThreeSteps()) && Placed(w) && AllWalk(ThreeSteps(), w)
      && r.err == Some(WriteFailed) && r.world.instances[0].current == 3 && r.world.log == w.log
      && !AllWalk(ThreeSteps(), r.world)
  {
    var w := InSecondStep();
    var c, f := Call(1, 0, "approve", 0, Some(0)), ActFaults(false, false, false, false, false, false, true, {});
    ApprovalListed();
    SecondStepWalks();
    assert Fewest(OneManager(), TaskDone(w, 0, f).tasks, 1, "manager", 1) == Some(0);
    assert AssigneeFor(OneManager(), TaskDone(w, 0, f).tasks, 1, ["manager"], {}) == Some(0);
    ActWalks(ThreeSteps(), OneManager(), w, c, f);
  }

  // ---------- closed is closed ----------

  /** A closed instance refuses every action; nothing changes, whatever might have failed. */
  lemma ClosedRefuses(tpl: Template, users: seq<User>, w: World, c: Call, f: ActFaults)
    requires c.instance < |w.instances| && Closed(w.instances[c.instance])
    ensures Act(tpl, users, w, c, f).world == w && Act(tpl, users, w, c, f).err.Some?
  {}

  ghost predicate Frozen(w: World, i: nat, inst: Instance, es: seq<Entry>) {
    i < |w.instances| && w.instances[i] == inst && History(w.log, i) == es
  }

  lemma {:induction false} ClosedForever(tpl: Template, users: seq<User>, w: World, ops: seq<Op>, n: nat, i: nat)
    requires n <= |ops| && i < |w.instances| && Closed(w.instances[i])
    ensures Frozen(At(Next(tpl, users), w, ops, n), i, w.instances[i], History(w.log, i))
  {
    if n > 0 {
      ClosedForever(tpl, users, w, ops, n - 1, i);
      StaysFrozen(tpl, users, At(Next(tpl, users), w, ops, n - 1), ops[n - 1], i);
    }
  }

  lemma StaysFrozen(tpl: Template, users: seq<User>, w: World, op: Op, i: nat)
    requires i < |w.instances| && Closed(w.instances[i])
    ensures Frozen(Result(tpl, users, w, op).world, i, w.instances[i], History(w.log, i))
  {
    var after := Result(tpl, users, w, op).world;
    match op
    case Submit(_, _, _, _) =>
      if |after.log| > |w.log| { NotMine(tpl, users, w, op, i); }
    case Process(c, f) =>
      ActShape(tpl, users, w, c, f);
      if |after.log| > |w.log| { HistoryAppend(w.log, after.log[|w.log|], i); }
  }

  lemma NotMine(tpl: Template, users: seq<User>, w: World, op: Op, i: nat)
    requires op.Submit? && i < |w.instances|
    ensures History(Result(tpl, users, w, op).world.log, i) == History(w.log, i)
  {
    var after := Result(tpl, users, w, op).world;
    if |after.log| > |w.log| { HistoryAppend(w.log, after.log[|w.log|], i); }
  }
}

/** The approval workflow: a template graph, its running instances, their tasks and their audit log.
    A call is several separate writes; each may fail on its own, and the earlier ones stay. */
module WorkflowSteps {
  import opened Prelude
  import opened Reservations
  import opened Assigner

  datatype StepRow = StepRow(order: int, initial: bool, final: bool)

  datatype Transition = Transition(from: Id, to: Id, action: string, roles: seq<string>)

  datatype Template = Template(steps: map<Id, StepRow>, transitions: seq<Transition>)

  datatype InstanceStatus = InProgress | Completed | Rejected | Withdrawn // ..., cancelled

  /** `booking` is the tracked entity when the task type is "booking". */
  datatype Instance = Instance(org: Id, current: Id, status: InstanceStatus, booking: Option<Id>)

  datatype Entry = Entry(instance: nat, from: Id, to: Id, action: string, actor: nat)

  datatype World = World(instances: seq<Instance>, tasks: seq<Task>, log: seq<Entry>, bookings: Bookings)

  datatype WfError =
    | BadAction | InstanceNotFound | AlreadyClosed | StepNotFound | NoFirstStep | NoTransition
    | NotPermitted | NoAssignee | NoPerformer | WriteFailed

  /** The table constraints: foreign keys, and no transition from a step to itself. */
  ghost predicate WellFormed(tpl: Template) {
    forall t | t in tpl.transitions :: t.from in tpl.steps && t.to in tpl.steps && t.from != t.to
  }

  // ---------- queries ----------

  predicate Enters(tpl: Template, t: Transition) {
    t.from in tpl.steps && tpl.steps[t.from].initial && t.to in tpl.steps
  }

  /** GetFirstActionStep among the first n transitions: out of an initial step, to the step of lowest order. */
  function FirstAction(tpl: Template, n: nat): (r: Option<Transition>)
    requires n <= |tpl.transitions|
    ensures r.Some? ==> r.value in tpl.transitions[..n] && Enters(tpl, r.value)
    ensures r.Some? ==> forall t | t in tpl.transitions[..n] && Enters(tpl, t) ::
      tpl.steps[r.value.to].order <= tpl.steps[t.to].order
    ensures r.None? ==> forall t | t in tpl.transitions[..n] :: !Enters(tpl, t)
  {
    if n == 0 then None
    else
      var best, t := FirstAction(tpl, n - 1), tpl.transitions[n - 1];
      assert tpl.transitions[..n] == tpl.transitions[..n - 1] + [t];
      if Enters(tpl, t) && (best.Some? ==> tpl.steps[t.to].order < tpl.steps[best.value.to].order) then Some(t)
      else best
  }

  function Leaving(step: Id): Transition -> bool { (t: Transition) => t.from == step }

  /** GetValidTransitions: the query states no order, so which one comes first is anyone's choice;
      it may also fail, which is taken for a step without transitions. */
  function Outbound(tpl: Template, step: Id): seq<Transition> { Where(tpl.transitions, Leaving(step)) }

  function FirstListed(tpl: Template, step: Id, choice: Option<nat>): (r: Option<Transition>)
    ensures r.Some? ==> r.value in tpl.transitions && r.value.from == step
  {
    var outs := Outbound(tpl, step);
    if outs == [] || choice.None? then None
    else
      assert outs[choice.value % |outs|] in outs;
      Some(outs[choice.value % |outs|])
  }

  predicate TaskActive(t: Task) { t.status == Waiting || t.status == Working }

  /** GetActiveTaskForInstance: the newest pending or in-progress task. */
  function ActiveTask(tasks: seq<Task>, i: nat): (r: Option<nat>)
    ensures r.Some? ==> r.value < |tasks| && tasks[r.value].instance == i && TaskActive(tasks[r.value])
    ensures r.Some? ==> forall t | r.value < t < |tasks| :: tasks[t].instance == i ==> !TaskActive(tasks[t])
    ensures r.None? ==> forall t | 0 <= t < |tasks| :: tasks[t].instance == i ==> !TaskActive(tasks[t])
  {
    if tasks == [] then None
    else
      var t := tasks[|tasks| - 1];
      if t.instance == i && TaskActive(t) then Some(|tasks| - 1) else ActiveTask(tasks[..|tasks| - 1], i)
  }

  /** checkPermission: an empty role list admits everybody. */
  predicate Permitted(users: seq<User>, actor: nat, roles: seq<string>) {
    roles == [] || (actor < |users| && users[actor].role.Some? && users[actor].role.value in roles)
  }

  predicate Closed(inst: Instance) { inst.status != InProgress }

  // ---------- starting ----------

  /** Which writes of InitiateWorkflow fail, and for which roles the search for an assignee does. */
  datatype StartFaults = StartFaults(instance: bool, task: bool, history: bool, unanswered: set<nat>)

  datatype Outcome = Outcome(world: World, err: Option<WfError>)

  function Start(tpl: Template, users: seq<User>, w: World, org: Id, actor: nat, booking: Option<Id>,
                 f: StartFaults): Outcome {
    var first := FirstAction(tpl, |tpl.transitions|);
    if first.None? then Outcome(w, Some(NoFirstStep))
    else if f.instance then Outcome(w, Some(WriteFailed))
    else
      var i, t := |w.instances|, first.value;
      var w1 := w.(instances := w.instances + [Instance(org, t.to, InProgress, booking)]);
      var assignee := AssigneeFor(users, w.tasks, org, t.roles, f.unanswered);
      if assignee.None? then Outcome(w1, Some(NoAssignee))
      else if f.task then Outcome(w1, Some(WriteFailed))
      else
        var w2 := w1.(tasks := w.tasks + [Task(i, t.to, assignee.value, Waiting)]);
        if f.history then Outcome(w2, Some(WriteFailed))
        else Outcome(w2.(log := w.log + [Entry(i, t.from, t.to, t.action, actor)]), None)
  }

  // ---------- acting ----------

  /** Which statements of ProcessAction fail. Three reads are not checked: that of the active task
      (`readActive`), those of candidates (`unanswered`), and on the closing branch that of the
      transitions (see Call), which then leaves no roles and admits everybody. */
  datatype ActFaults = ActFaults(
    updateStep: bool, readActive: bool, completeTask: bool, completeInstance: bool,
    updateEntity: bool, createTask: bool, createHistory: bool, unanswered: set<nat>)

  /** `choice` says which transition is listed first; None, that they cannot be read. */
  datatype Call = Call(org: Id, instance: nat, action: string, actor: nat, choice: Option<nat>)

  predicate Ends(tpl: Template, step: Id, action: string) {
    action == "reject" || (step in tpl.steps && tpl.steps[step].final)
  }

  /** Everything ProcessAction checks before its first write. */
  function Refusal(tpl: Template, users: seq<User>, w: World, c: Call): Option<WfError> {
    if c.action != "approve" && c.action != "reject" then Some(BadAction)
    else if c.instance >= |w.instances| || w.instances[c.instance].org != c.org then Some(InstanceNotFound)
    else
      var inst := w.instances[c.instance];
      if Closed(inst) then Some(AlreadyClosed)
      else if inst.current !in tpl.steps then Some(StepNotFound)
      else
        var t := FirstListed(tpl, inst.current, c.choice);
        if !Ends(tpl, inst.current, c.action) && t.None? then Some(NoTransition)
        else if !Ends(tpl, inst.current, c.action) && t.value.to !in tpl.steps then Some(StepNotFound)
        else if !Permitted(users, c.actor, if t.Some? then t.value.roles else []) then Some(NotPermitted)
        else None
  }

  function NextStep(tpl: Template, inst: Instance, c: Call): Id
    requires !Ends(tpl, inst.current, c.action) ==> FirstListed(tpl, inst.current, c.choice).Some?
  { if Ends(tpl, inst.current, c.action) then inst.current else FirstListed(tpl, inst.current, c.choice).value.to }

  /** First write: the instance moves. */
  function Moved(tpl: Template, w: World, c: Call): World
    requires c.instance < |w.instances|
    requires !Ends(tpl, w.instances[c.instance].current, c.action) ==>
      FirstListed(tpl, w.instances[c.instance].current, c.choice).Some?
  {
    var inst := w.instances[c.instance];
    var status := if c.action == "reject" then Rejected
      else if Ends(tpl, inst.current, c.action) then Completed else InProgress;
    w.(instances := w.instances[c.instance := inst.(current := NextStep(tpl, inst, c), status := status)])
  }

  /** Second write: the task found active, if the read found one, is done. */
  function TaskDone(w: World, i: nat, f: ActFaults): World {
    var a := ActiveTask(w.tasks, i);
    if f.readActive || a.None? then w else w.(tasks := w.tasks[a.value := w.tasks[a.value].(status := Done)])
  }

  /** Last writes of a closing call: the instance is completed (even if it was rejected) and the
      booking told; a failure there is only logged. */
  function Finished(w: World, c: Call, f: ActFaults): World
    requires c.instance < |w.instances|
  {
    var inst := w.instances[c.instance];
    w.(instances := w.instances[c.instance := inst.(status := Completed)],
       bookings := if inst.booking.None? || f.updateEntity then w.bookings
                   else OutcomeApplied(w.bookings, inst.org, inst.booking.value, c.action == "approve"))
  }

  function Logged(tpl: Template, users: seq<User>, before: World, w: World, c: Call, f: ActFaults): Outcome
    requires c.instance < |before.instances|
    requires !Ends(tpl, before.instances[c.instance].current, c.action) ==>
      FirstListed(tpl, before.instances[c.instance].current, c.choice).Some?
  {
    var inst := before.instances[c.instance];
    if c.actor >= |users| then Outcome(w, Some(NoPerformer))
    else if f.createHistory then Outcome(w, Some(WriteFailed))
    else Outcome(w.(log := w.log + [Entry(c.instance, inst.current, NextStep(tpl, inst, c), c.action, c.actor)]), None)
  }

  function Act(tpl: Template, users: seq<User>, w: World, c: Call, f: ActFaults): Outcome {
    var refusal := Refusal(tpl, users, w, c);
    if refusal.Some? then Outcome(w, refusal)
    else if f.updateStep then Outcome(w, Some(WriteFailed))
    else
      var inst := w.instances[c.instance];
      var w1 := Moved(tpl, w, c);
      if !f.readActive && ActiveTask(w.tasks, c.instance).Some? && f.completeTask then Outcome(w1, Some(WriteFailed))
      else
        var w2 := TaskDone(w1, c.instance, f);
        if Ends(tpl, inst.current, c.action) then
          if f.completeInstance then Outcome(w2, Some(WriteFailed))
          else Logged(tpl, users, w, Finished(w2, c, f), c, f)
        else
          var t := FirstListed(tpl, inst.current, c.choice).value;
          var assignee := AssigneeFor(users, w2.tasks, inst.org, t.roles, f.unanswered);
          if assignee.None? then Outcome(w2, Some(NoAssignee))
          else if f.createTask then Outcome(w2, Some(WriteFailed))
          else Logged(tpl, users, w, w2.(tasks := w2.tasks + [Task(c.instance, t.to, assignee.value, Waiting)]), c, f)
  }

  // ---------- runs ----------

  datatype Op = Submit(org: Id, actor: nat, booking: Option<Id>, sf: StartFaults) | Process(call: Call, af: ActFaults)

  function Result(tpl: Template, users: seq<User>, w: World, op: Op): Outcome {
    match op
    case Submit(org, actor, booking, sf) => Start(tpl, users, w, org, actor, booking, sf)
    case Process(call, af) => Act(tpl, users, w, call, af)
  }

  function Next(tpl: Template, users: seq<User>): (World, Op) -> World {
    (w: World, op: Op) => Result(tpl, users, w, op).world
  }
}

/** The workflow service over its tables, write by write. */
module Workflow {
  import opened Prelude
  import opened Schema
  import opened Assigner
  import opened WorkflowSteps

  class Engine {
    const template: Template
    const users: seq<User>
    var instances: seq<Instance>
    var tasks: seq<Task>
    var log: seq<Entry>
    var bookings: map<Id, Booking>

    constructor (template: Template, users: seq<User>, bookings: map<Id, Booking>)
      ensures this.template == template && this.users == users && Tables() == World([], [], [], bookings)
    {
      this.template, this.users, this.bookings := template, users, bookings;
      instances, tasks, log := [], [], [];
    }

    ghost function Tables(): World
      reads this
    { World(instances, tasks, log, bookings) }

    /** A role for which the query fails is passed over like one that has nobody. */
    method DetermineAssignee(org: Id, roles: seq<string>, unanswered: set<nat>) returns (r: Option<nat>)
      ensures r == AssigneeFor(users, tasks, org, roles, unanswered)
    {
      for k := 0 to |roles|
        invariant AssigneeFor(users, tasks, org, roles, unanswered)
          == AssigneeFrom(users, tasks, org, roles, unanswered, k)
      {
        if k in unanswered { continue; }
        var u := Fewest(users, tasks, org, roles[k], |users|);
        if u.Some? { return u; }
      }
      return None;
    }

    method CheckPermission(actor: nat, roles: seq<string>) returns (ok: bool)
      ensures ok <==> Permitted(users, actor, roles)
    {
      if |roles| == 0 { return true; }
      if actor >= |users| { return false; }
      if users[actor].role.None? { return false; }
      for k := 0 to |roles|
        invariant users[actor].role.value !in roles[..k]
      {
        if roles[k] == users[actor].role.value { return true; }
      }
      return false;
    }

    method Initiate(org: Id, actor: nat, booking: Option<Id>, f: StartFaults) returns (err: Option<WfError>)
      modifies this
      ensures Outcome(Tables(), err) == Result(template, users, old(Tables()), Submit(org, actor, booking, f))
    {
      var first := FirstAction(template, |template.transitions|);
      if first.None? { return Some(NoFirstStep); }
      var t := first.value;

      var i := |instances|;
      if f.instance { return Some(WriteFailed); }
      instances := instances + [Instance(org, t.to, InProgress, booking)];

      var assignee := DetermineAssignee(org, t.roles, f.unanswered);
      if assignee.None? { return Some(NoAssignee); }
      if f.task { return Some(WriteFailed); }
      tasks := tasks + [Task(i, t.to, assignee.value, Waiting)];

      if f.history { return Some(WriteFailed); }
      log := log + [Entry(i, t.from, t.to, t.action, actor)];
      return None;
    }

    /** Everything that is looked up before the first write. */
    method Resolve(c: Call) returns (err: Option<WfError>, ends: bool, transition: Option<Transition>, next: Id)
      ensures err == Refusal(template, users, Tables(), c)
      ensures err.None? ==> ends == Ends(template, instances[c.instance].current, c.action)
      ensures err.None? ==> transition == FirstListed(template, instances[c.instance].current, c.choice)
      ensures err.None? ==> next == NextStep(template, instances[c.instance], c)
    {
      ends, transition, next := false, None, 0;
      if c.action != "approve" && c.action != "reject" { err := Some(BadAction); return; }
      if c.instance >= |instances| || instances[c.instance].org != c.org { err := Some(InstanceNotFound); return; }
      var inst := instances[c.instance];
      if inst.status == Completed || inst.status == Withdrawn || inst.status == Rejected {
        err := Some(AlreadyClosed); return; }
      if inst.current !in template.steps { err := Some(StepNotFound); return; }
      var isRejection := c.action == "reject";
      var isCompletingFinalStep := template.steps[inst.current].final && !isRejection;
      ends := isRejection || isCompletingFinalStep;
      transition := FirstListed(template, inst.current, c.choice);
      next := inst.current;
      if !ends {
        if transition.None? { err := Some(NoTransition); return; }
        next := transition.value.to;
        if next !in template.steps { err := Some(StepNotFound); return; }
      }
      var permitted := CheckPermission(c.actor, if transition.Some? then transition.value.roles else []);
      err := if permitted then None else Some(NotPermitted);
    }

    method CompleteActive(i: nat, f: ActFaults) returns (ok: bool)
      modifies this`tasks
      ensures ok <==> f.readActive || ActiveTask(old(tasks), i).None? || !f.completeTask
      ensures Tables() == if ok then TaskDone(old(Tables()), i, f) else old(Tables())
    {
      var active := ActiveTask(tasks, i);
      if !f.readActive && active.Some? {
        if f.completeTask { return false; }
        tasks := tasks[active.value := tasks[active.value].(status := Done)];
      }
      return true;
    }

    /** The closing writes: the instance, then the booking it was about. */
    method Finish(c: Call, f: ActFaults)
      requires c.instance < |instances|
      modifies this`instances, this`bookings
      ensures Tables() == Finished(old(Tables()), c, f)
    {
      var inst := instances[c.instance];
      instances := instances[c.instance := inst.(status := Completed)];
      if inst.booking.Some? && !f.updateEntity {
        var id := inst.booking.value;
        if id in bookings && bookings[id].org == inst.org {
          var status := Cancelled;
          if c.action == "approve" { status := Confirmed; }
          bookings := bookings[id := bookings[id].(status := status)];
        }
      }
    }

    method ProcessAction(c: Call, f: ActFaults) returns (err: Option<WfError>)
      modifies this
      ensures Outcome(Tables(), err) == Result(template, users, old(Tables()), Process(c, f))
    {
      var ends, transition, next;
      err, ends, transition, next := Resolve(c);
      if err.Some? { return; }
      var inst := instances[c.instance];

      if f.updateStep { return Some(WriteFailed); }
      var status := InProgress;
      if c.action == "reject" { status := Rejected; } else if ends { status := Completed; }
      instances := instances[c.instance := inst.(current := next, status := status)];

      var ok := CompleteActive(c.instance, f);
      if !ok { return Some(WriteFailed); }

      if ends {
        if f.completeInstance { return Some(WriteFailed); }
        Finish(c, f);
      } else {
        var assignee := DetermineAssignee(inst.org, transition.value.roles, f.unanswered);
        if assignee.None? { return Some(NoAssignee); }
        if f.createTask { return Some(WriteFailed); }
        tasks := tasks + [Task(c.instance, next, assignee.value, Waiting)];
      }

      if c.actor >= |users| { return Some(NoPerformer); }
      if f.createHistory { return Some(WriteFailed); }
      log := log + [Entry(c.instance, inst.current, next, c.action, c.actor)];
    }
  }
}

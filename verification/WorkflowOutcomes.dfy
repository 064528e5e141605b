/** Runs of the workflow engine, most of them of calls that complete: who holds the task, what became of the
    booking, and how soon an instance is decided. */
module WorkflowOutcomes {
  import opened Prelude
  import opened Reservations
  import opened Assigner
  import opened WorkflowSteps
  import opened WorkflowRuns
  import opened Runs

  /** The call does not stop halfway, and if it gets past its checks, the active task can be read and the
      booking written. Everything here can be looked up before the call. */
  predicate Succeeds(tpl: Template, users: seq<User>, w: World, op: Op) {
    && !Stops(tpl, users, w, op)
    && (op.Process? && Refusal(tpl, users, w, op.call).None? ==> !op.af.readActive && !op.af.updateEntity)
  }

  lemma SucceedsMeans(tpl: Template, users: seq<User>, w: World, op: Op)
    requires WellFormed(tpl) && Succeeds(tpl, users, w, op)
    ensures var r := Result(tpl, users, w, op);
      r.world == w || (r.err.None? && (op.Process? ==> !op.af.readActive && !op.af.updateEntity))
  {
    StopsMeans(tpl, users, w, op);
  }

  // ---------- one task for an open instance, none for a closed one ----------

  ghost predicate TaskFits(w: World, i: nat)
    requires i < |w.instances|
  {
    var a := ActiveTask(w.tasks, i);
    if Closed(w.instances[i]) then a.None? else a.Some? && w.tasks[a.value].step == w.instances[i].current
  }

  ghost predicate AllFit(w: World) {
    Placed(w) && AtMostOneTask(w.tasks) && forall i | 0 <= i < |w.instances| :: TaskFits(w, i)
  }

  lemma StartFits(tpl: Template, users: seq<User>, w: World, org: Id, actor: nat, booking: Option<Id>, f: StartFaults)
    requires AllFit(w) && Start(tpl, users, w, org, actor, booking, f).err.None?
    ensures AllFit(Start(tpl, users, w, org, actor, booking, f).world)
  {
    var after := Start(tpl, users, w, org, actor, booking, f).world;
    StartTasks(tpl, users, w, org, actor, booking, f);
    forall i | 0 <= i < |after.instances| ensures TaskFits(after, i) {
      ActiveAppend(w.tasks, after.tasks[|w.tasks|], i);
      assert i < |w.instances| ==> TaskFits(w, i);
    }
  }

  /** A completed ProcessAction, task by task. */
  lemma CompletedAct(tpl: Template, users: seq<User>, w: World, c: Call, f: ActFaults)
    requires Act(tpl, users, w, c, f).err.None?
    ensures c.instance < |w.instances|
    ensures var inst, after := w.instances[c.instance], Act(tpl, users, w, c, f).world;
      var done := TaskDone(w, c.instance, f).tasks;
      if Ends(tpl, inst.current, c.action) then
        && after.tasks == done
        && after.bookings == (if inst.booking.None? || f.updateEntity then w.bookings
             else OutcomeApplied(w.bookings, inst.org, inst.booking.value, c.action == "approve"))
      else
        && |after.tasks| == |done| + 1 && after.tasks == done + [after.tasks[|done|]]
        && after.tasks[|done|].instance == c.instance && TaskActive(after.tasks[|done|])
        && after.tasks[|done|].step == after.instances[c.instance].current
        && after.bookings == w.bookings
  {}

  lemma OtherTaskFits(w: World, after: World, c: nat, i: nat)
    requires AllFit(w) && c < |w.instances| && i < |w.instances| && i != c && ActiveTask(w.tasks, c).Some?
    requires |after.instances| == |w.instances| && after.instances[i] == w.instances[i]
    requires var a := ActiveTask(w.tasks, c).value; var done := w.tasks[a := w.tasks[a].(status := Done)];
      after.tasks == done || (|after.tasks| == |done| + 1 && after.tasks == done + [after.tasks[|done|]]
                              && after.tasks[|done|].instance == c)
    ensures TaskFits(after, i)
  {
    var a := ActiveTask(w.tasks, c).value;
    var done := w.tasks[a := w.tasks[a].(status := Done)];
    ActiveDone(w.tasks, c, i);
    assert TaskFits(w, i);
    if after.tasks != done { ActiveAppend(done, after.tasks[|done|], i); }
  }

  lemma OwnTaskFits(tpl: Template, users: seq<User>, w: World, c: Call, f: ActFaults)
    requires AllFit(w) && Act(tpl, users, w, c, f).err.None? && !f.readActive
    ensures c.instance < |Act(tpl, users, w, c, f).world.instances|
      && TaskFits(Act(tpl, users, w, c, f).world, c.instance)
  {
    var after, done := Act(tpl, users, w, c, f).world, TaskDone(w, c.instance, f).tasks;
    ActShape(tpl, users, w, c, f);
    CompletedAct(tpl, users, w, c, f);
    assert TaskFits(w, c.instance);
    ActiveDone(w.tasks, c.instance, c.instance);
    if |after.tasks| > |done| { ActiveAppend(done, after.tasks[|done|], c.instance); }
  }

  lemma ActFits(tpl: Template, users: seq<User>, w: World, c: Call, f: ActFaults)
    requires AllFit(w) && Act(tpl, users, w, c, f).err.None? && !f.readActive
    ensures AllFit(Act(tpl, users, w, c, f).world)
  {
    var after := Act(tpl, users, w, c, f).world;
    ActShape(tpl, users, w, c, f);
    ActPlaced(tpl, users, w, c, f);
    ActKeepsOne(tpl, users, w, c, f);
    CompletedAct(tpl, users, w, c, f);
    OwnTaskFits(tpl, users, w, c, f);
    assert TaskFits(w, c.instance);
    forall i | 0 <= i < |after.instances| && i != c.instance ensures TaskFits(after, i) {
      OtherTaskFits(w, after, c.instance, i);
    }
  }

  // ---------- the bookings are what the log says ----------

  /** The closing entries of the log, applied in order. */
  function Told(start: Bookings, instances: seq<Instance>, log: seq<Entry>, n: nat): Bookings
    requires n <= |log|
  {
    if n == 0 then start
    else
      var before, e := Told(start, instances, log, n - 1), log[n - 1];
      if e.from == e.to && e.instance < |instances| && instances[e.instance].booking.Some?
      then OutcomeApplied(before, instances[e.instance].org, instances[e.instance].booking.value, e.action == "approve")
      else before
  }

  /** Instances keep their organisation and their booking. */
  ghost predicate SameSubjects(before: seq<Instance>, after: seq<Instance>) {
    |before| <= |after|
    && forall i | 0 <= i < |before| :: after[i].org == before[i].org && after[i].booking == before[i].booking
  }

  lemma {:induction false} ToldStays(start: Bookings, before: seq<Instance>, after: seq<Instance>,
                                     log: seq<Entry>, more: seq<Entry>, n: nat)
    requires n <= |log| && log <= more && SameSubjects(before, after) && forall e | e in log :: e.instance < |before|
    ensures Told(start, before, log, n) == Told(start, after, more, n)
  {
    if n > 0 {
      ToldStays(start, before, after, log, more, n - 1);
      assert log[n - 1] in log && more[n - 1] == log[n - 1];
    }
  }

  ghost predicate AsTold(start: Bookings, w: World) { w.bookings == Told(start, w.instances, w.log, |w.log|) }

  lemma StartAsTold(tpl: Template, users: seq<User>, start: Bookings, w: World, op: Op)
    requires WellFormed(tpl) && Placed(w) && AsTold(start, w) && op.Submit?
    ensures AsTold(start, Result(tpl, users, w, op).world)
  {
    var after := Result(tpl, users, w, op).world;
    ToldStays(start, w.instances, after.instances, w.log, after.log, |w.log|);
  }

  /** One more entry: a closing one speaks, any other does not. */
  lemma ToldOneMore(start: Bookings, before: seq<Instance>, after: seq<Instance>, log: seq<Entry>, e: Entry)
    requires SameSubjects(before, after) && e.instance < |after| && forall x | x in log :: x.instance < |before|
    ensures var was, inst := Told(start, before, log, |log|), after[e.instance];
      Told(start, after, log + [e], |log| + 1) == if e.from == e.to && inst.booking.Some?
        then OutcomeApplied(was, inst.org, inst.booking.value, e.action == "approve") else was
  {
    ToldStays(start, before, after, log, log + [e], |log|);
  }

  lemma ActAsTold(tpl: Template, users: seq<User>, start: Bookings, w: World, c: Call, f: ActFaults)
    requires WellFormed(tpl) && Placed(w) && AsTold(start, w)
    requires Act(tpl, users, w, c, f).err.None? && !f.updateEntity
    ensures AsTold(start, Act(tpl, users, w, c, f).world)
  {
    var after := Act(tpl, users, w, c, f).world;
    ActShape(tpl, users, w, c, f);
    CompletedAct(tpl, users, w, c, f);
    ToldOneMore(start, w.instances, after.instances, w.log, after.log[|w.log|]);
  }

  // ---------- runs ----------

  /** Everything at once: histories are walks, tasks fit, bookings are as told. */
  ghost predicate Orderly(tpl: Template, start: Bookings, w: World) {
    AllFit(w) && AllWalk(tpl, w) && AsTold(start, w)
  }

  lemma CallKeepsOrder(tpl: Template, users: seq<User>, start: Bookings, w: World, op: Op)
    requires WellFormed(tpl) && Orderly(tpl, start, w) && Succeeds(tpl, users, w, op)
    ensures Orderly(tpl, start, Result(tpl, users, w, op).world)
  {
    SucceedsMeans(tpl, users, w, op);
    if Result(tpl, users, w, op).world != w {
      match op
      case Submit(org, actor, booking, f) =>
        StartFits(tpl, users, w, org, actor, booking, f);
        StartWalks(tpl, users, w, org, actor, booking, f);
        StartAsTold(tpl, users, start, w, op);
      case Process(c, f) =>
        ActFits(tpl, users, w, c, f);
        ActWalks(tpl, users, w, c, f);
        ActAsTold(tpl, users, start, w, c, f);
    }
  }

  ghost function InOrder(tpl: Template, start: Bookings): World -> bool { (w: World) => Orderly(tpl, start, w) }

  function Successful(tpl: Template, users: seq<User>): (World, Op) -> bool {
    (w: World, op: Op) => Succeeds(tpl, users, w, op)
  }

  lemma CallsKeepOrder(tpl: Template, users: seq<User>, start: Bookings)
    requires WellFormed(tpl)
    ensures forall w, op {:trigger Next(tpl, users)(w, op)} ::
      InOrder(tpl, start)(w) && Successful(tpl, users)(w, op) ==> InOrder(tpl, start)(Next(tpl, users)(w, op))
  {
    forall w, op | InOrder(tpl, start)(w) && Successful(tpl, users)(w, op)
      ensures InOrder(tpl, start)(Next(tpl, users)(w, op))
    { CallKeepsOrder(tpl, users, start, w, op); }
  }

  lemma EmptyIsOrderly(tpl: Template, start: Bookings)
    ensures InOrder(tpl, start)(World([], [], [], start))
  {}

  /** Over every run of calls that succeed or do nothing: an open instance has exactly one active
      task, for its current step, a closed one has none; every history is a walk; and every booking's
      status is the one the closing entries of the log gave it. */
  lemma OrderOverRuns(tpl: Template, users: seq<User>, start: Bookings, ops: seq<Op>, n: nat)
    requires n <= |ops| && WellFormed(tpl)
    requires SafeThroughout(Next(tpl, users), World([], [], [], start), ops, Successful(tpl, users), n)
    ensures Orderly(tpl, start, At(Next(tpl, users), World([], [], [], start), ops, n))
  {
    CallsKeepOrder(tpl, users, start);
    EmptyIsOrderly(tpl, start);
    GoodIfSafe(Next(tpl, users), World([], [], [], start), ops, InOrder(tpl, start), Successful(tpl, users), n);
  }

  // ---------- one verdict ----------

  /** If the k-th entry of the log closed its instance, the instance is closed, the entry is a decision,
      and it is the last that instance has. */
  ghost predicate SpeaksLast(w: World, k: nat)
    requires k < |w.log|
  {
    var e := w.log[k];
    e.from == e.to ==>
      && e.instance < |w.instances| && Closed(w.instances[e.instance])
      && (e.action == "approve" || e.action == "reject")
      && forall j | k < j < |w.log| :: w.log[j].instance != e.instance
  }

  ghost predicate Spoken(w: World) { Placed(w) && forall k | 0 <= k < |w.log| :: SpeaksLast(w, k) }

  lemma OneMoreSpoken(w: World, after: World, e: Entry)
    requires Spoken(w) && Placed(after) && after.log == w.log + [e] && e.instance < |after.instances|
    requires forall i | 0 <= i < |w.instances| && Closed(w.instances[i]) ::
      i != e.instance && i < |after.instances| && Closed(after.instances[i])
    requires e.from == e.to ==> Closed(after.instances[e.instance]) && (e.action == "approve" || e.action == "reject")
    ensures Spoken(after)
  {
    forall k | 0 <= k < |after.log| ensures SpeaksLast(after, k) {
      if k < |w.log| { assert SpeaksLast(w, k) && after.log[k] == w.log[k]; }
    }
  }

  lemma NoneMoreSpoken(w: World, after: World)
    requires Spoken(w) && Placed(after) && after.log == w.log
    requires forall i | 0 <= i < |w.instances| && Closed(w.instances[i]) ::
      i < |after.instances| && Closed(after.instances[i])
    ensures Spoken(after)
  {
    forall k | 0 <= k < |after.log| ensures SpeaksLast(after, k) { assert SpeaksLast(w, k); }
  }

  lemma StartSpoken(tpl: Template, users: seq<User>, w: World, org: Id, actor: nat, booking: Option<Id>, f: StartFaults)
    requires WellFormed(tpl) && Spoken(w)
    ensures Spoken(Start(tpl, users, w, org, actor, booking, f).world)
  {
    var r := Start(tpl, users, w, org, actor, booking, f);
    StartShape(tpl, users, w, org, actor, booking, f);
    StartTasks(tpl, users, w, org, actor, booking, f);
    if r.err.None? {
      assert FirstAction(tpl, |tpl.transitions|).value in tpl.transitions;
      OneMoreSpoken(w, r.world, r.world.log[|w.log|]);
    } else {
      NoneMoreSpoken(w, r.world);
    }
  }

  lemma ActSpoken(tpl: Template, users: seq<User>, w: World, c: Call, f: ActFaults)
    requires WellFormed(tpl) && Spoken(w)
    ensures Spoken(Act(tpl, users, w, c, f).world)
  {
    var r := Act(tpl, users, w, c, f);
    ActShape(tpl, users, w, c, f);
    ActPlaced(tpl, users, w, c, f);
    if r.err.None? { OneMoreSpoken(w, r.world, r.world.log[|w.log|]); } else { NoneMoreSpoken(w, r.world); }
  }

  /** Over every run, whatever fails wherever: an entry that closed an instance is the last entry that
      instance has, so no instance ever speaks for its booking twice, and none that spoke is open. */
  lemma OneVerdict(tpl: Template, users: seq<User>, start: Bookings, ops: seq<Op>, n: nat)
    requires n <= |ops| && WellFormed(tpl)
    ensures var w := At(Next(tpl, users), World([], [], [], start), ops, n);
      && (forall k | 0 <= k < |w.log| :: SpeaksLast(w, k))
      && forall j, k | 0 <= j < k < |w.log| && w.log[j].instance == w.log[k].instance :: w.log[j].from != w.log[j].to
  {
    forall w, op | Spoken(w) ensures Spoken(Next(tpl, users)(w, op)) {
      match op
      case Submit(org, actor, booking, f) => StartSpoken(tpl, users, w, org, actor, booking, f);
      case Process(c, f) => ActSpoken(tpl, users, w, c, f);
    }
    Always(Next(tpl, users), World([], [], [], start), ops, (w: World) => Spoken(w), n);
    var w := At(Next(tpl, users), World([], [], [], start), ops, n);
    forall j, k | 0 <= j < k < |w.log| && w.log[j].instance == w.log[k].instance
      ensures w.log[j].from != w.log[j].to
    { assert SpeaksLast(w, j); }
  }

  // ---------- how soon ----------

  ghost predicate Rising(tpl: Template) {
    forall t | t in tpl.transitions ::
      t.from in tpl.steps && t.to in tpl.steps && tpl.steps[t.from].order < tpl.steps[t.to].order
  }

  ghost function Above(tpl: Template, step: Id): set<Id>
    requires step in tpl.steps
  { set s | s in tpl.steps && tpl.steps[s].order > tpl.steps[step].order }

  lemma Climb(tpl: Template, low: Id, high: Id)
    requires low in tpl.steps && high in tpl.steps && tpl.steps[low].order < tpl.steps[high].order
    ensures |Above(tpl, high)| < |Above(tpl, low)|
  {
    assert high in Above(tpl, low) && high !in Above(tpl, high);
    Fewer(Above(tpl, high), Above(tpl, low));
  }

  lemma Fewer(a: set<Id>, b: set<Id>)
    requires a < b
    ensures |a| < |b|
  {
    assert |b| == |a| + |b - a| by { assert b == a + (b - a); }
    assert b - a != {};
  }

  /** An approval of instance i that goes through. */
  ghost predicate Approves(tpl: Template, users: seq<User>, w: World, op: Op, i: nat) {
    op.Process? && op.call.instance == i && op.call.action == "approve" && Act(tpl, users, w, op.call, op.af).err.None?
  }

  /** How many of the first n calls of the run were that. */
  ghost function Approvals(tpl: Template, users: seq<User>, w: World, ops: seq<Op>, i: nat, n: nat): nat
    requires n <= |ops|
  {
    if n == 0 then 0
    else
      Approvals(tpl, users, w, ops, i, n - 1)
        + if Approves(tpl, users, At(Next(tpl, users), w, ops, n - 1), ops[n - 1], i) then 1 else 0
  }

  /** Instance i has not moved back, and each approval of it has closed it or moved it up. */
  ghost predicate Rises(tpl: Template, before: Instance, after: Instance, approvals: nat) {
    && after.current in tpl.steps && before.current in tpl.steps
    && (Closed(after) || (!Closed(before) && approvals + |Above(tpl, after.current)| <= |Above(tpl, before.current)|))
  }

  lemma ActRises(tpl: Template, users: seq<User>, w: World, c: Call, f: ActFaults, i: nat)
    requires Rising(tpl) && i < |w.instances| && w.instances[i].current in tpl.steps && c.instance == i
    ensures var r := Act(tpl, users, w, c, f);
      |r.world.instances| == |w.instances|
      && Rises(tpl, w.instances[i], r.world.instances[i], if c.action == "approve" && r.err.None? then 1 else 0)
  {
    ActShape(tpl, users, w, c, f);
    var r := Act(tpl, users, w, c, f);
    var inst, now := w.instances[i], r.world.instances[i];
    if r.world != w || r.err.None? {
      if !Closed(now) {
        var t :| t in tpl.transitions && t.from == inst.current && t.to == now.current;
        Climb(tpl, inst.current, now.current);
      }
    }
  }

  lemma CallRises(tpl: Template, users: seq<User>, w: World, op: Op, i: nat)
    requires Rising(tpl) && i < |w.instances| && w.instances[i].current in tpl.steps
    ensures var after := Result(tpl, users, w, op).world;
      |w.instances| <= |after.instances|
      && Rises(tpl, w.instances[i], after.instances[i], if Approves(tpl, users, w, op, i) then 1 else 0)
  {
    match op
    case Submit(org, actor, booking, f) => StartShape(tpl, users, w, org, actor, booking, f);
    case Process(c, f) =>
      if c.instance == i { ActRises(tpl, users, w, c, f, i); } else { ActShape(tpl, users, w, c, f); }
  }

  lemma {:induction false} ApprovalsRise(tpl: Template, users: seq<User>, w: World, ops: seq<Op>, n: nat, i: nat)
    requires n <= |ops| && Rising(tpl) && i < |w.instances| && w.instances[i].current in tpl.steps
    ensures var now := At(Next(tpl, users), w, ops, n);
      |w.instances| <= |now.instances|
      && Rises(tpl, w.instances[i], now.instances[i], Approvals(tpl, users, w, ops, i, n))
  {
    if n > 0 {
      ApprovalsRise(tpl, users, w, ops, n - 1, i);
      CallRises(tpl, users, At(Next(tpl, users), w, ops, n - 1), ops[n - 1], i);
    }
  }

  /** In any run, whatever else happens to this and other instances and whatever fails: once the
      approvals of i that went through are as many as the template has steps, i is closed, whichever
      transition was listed first each time. */
  lemma ApprovalsClose(tpl: Template, users: seq<User>, w: World, ops: seq<Op>, i: nat)
    requires Rising(tpl) && i < |w.instances| && w.instances[i].current in tpl.steps
    requires Approvals(tpl, users, w, ops, i, |ops|) >= |tpl.steps|
    ensures var now := At(Next(tpl, users), w, ops, |ops|); i < |now.instances| && Closed(now.instances[i])
  {
    ApprovalsRise(tpl, users, w, ops, |ops|, i);
    Fewer(Above(tpl, w.instances[i].current), tpl.steps.Keys);
  }

  /** Whom these roles admit: everybody if none is named, otherwise users with one of them. */
  predicate Admits(users: seq<User>, roles: seq<string>, actor: nat) {
    roles == [] || (actor < |users| && exists k :: 0 <= k < |roles| && users[actor].role == Some(roles[k]))
  }

  /** What an action has to pass before anything is written, whatever fails afterwards. */
  lemma ActionIsAdmittedIff(tpl: Template, users: seq<User>, w: World, c: Call)
    ensures Refusal(tpl, users, w, c).None? <==>
      && (c.action == "approve" || c.action == "reject")
      && c.instance < |w.instances| && w.instances[c.instance].org == c.org
      && w.instances[c.instance].status == InProgress && w.instances[c.instance].current in tpl.steps
      && var step := w.instances[c.instance].current;
         var t := FirstListed(tpl, step, c.choice);
         && (c.action == "reject" || tpl.steps[step].final || (t.Some? && t.value.to in tpl.steps))
         && Admits(users, if t.Some? then t.value.roles else [], c.actor)
  {
    if c.instance < |w.instances| {
      var t := FirstListed(tpl, w.instances[c.instance].current, c.choice);
      AdmitsMeans(users, if t.Some? then t.value.roles else [], c.actor);
    }
  }

  /** A refusal names something that is the case. */
  lemma ActionRefusalIsTrue(tpl: Template, users: seq<User>, w: World, c: Call)
    ensures match Refusal(tpl, users, w, c)
      case Some(BadAction) => c.action != "approve" && c.action != "reject"
      case Some(InstanceNotFound) => c.instance < |w.instances| ==> w.instances[c.instance].org != c.org
      case Some(AlreadyClosed) => c.instance < |w.instances| && w.instances[c.instance].status != InProgress
      case Some(NotPermitted) => c.instance < |w.instances|
        && var t := FirstListed(tpl, w.instances[c.instance].current, c.choice);
           t.Some? && !Admits(users, t.value.roles, c.actor)
      case Some(NoTransition) => c.instance < |w.instances|
        && FirstListed(tpl, w.instances[c.instance].current, c.choice).None?
      case Some(StepNotFound) => c.instance < |w.instances|
      case Some(_) => false
      case None => true
  {
    if c.instance < |w.instances| {
      var t := FirstListed(tpl, w.instances[c.instance].current, c.choice);
      AdmitsMeans(users, if t.Some? then t.value.roles else [], c.actor);
    }
  }

  lemma AdmitsMeans(users: seq<User>, roles: seq<string>, actor: nat)
    ensures Permitted(users, actor, roles) <==> Admits(users, roles, actor)
  {}

  const NOTHING_FAILS := ActFaults(false, false, false, false, false, false, false, {})

  /** When an approval of an open instance goes through, nothing failing: exactly when the performer may
      act on the transition listed first and, if there is a next step, somebody can be given its task.
      (Closing an instance while its transitions cannot be read is open to everybody: see FirstListed.) */
  lemma ApprovalIsGrantedIff(tpl: Template, users: seq<User>, w: World, c: Call)
    requires WellFormed(tpl)
    requires c.instance < |w.instances| && w.instances[c.instance].org == c.org && c.action == "approve"
    requires !Closed(w.instances[c.instance]) && w.instances[c.instance].current in tpl.steps && c.actor < |users|
    ensures var step := w.instances[c.instance].current;
      var t := FirstListed(tpl, step, c.choice);
      Act(tpl, users, w, c, NOTHING_FAILS).err.None? <==>
        && Admits(users, if t.Some? then t.value.roles else [], c.actor)
        && (tpl.steps[step].final
            || (t.Some? && exists role, u | role in t.value.roles && 0 <= u < |users| ::
              Candidate(users, c.org, role, u)))
  {
    var t := FirstListed(tpl, w.instances[c.instance].current, c.choice);
    AdmitsMeans(users, if t.Some? then t.value.roles else [], c.actor);
    if t.Some? { SomebodyIsFoundIff(users, TaskDone(w, c.instance, NOTHING_FAILS).tasks, c.org, t.value.roles); }
  }

  /** When a rejection of an open instance goes through, nothing else failing: exactly when the performer
      may act on the transition listed first. Where the transitions cannot be read or there are none,
      that is everybody. The instance then reads completed, not rejected, and its booking is cancelled. */
  lemma RejectionIsGrantedIff(tpl: Template, users: seq<User>, w: World, c: Call)
    requires c.instance < |w.instances| && w.instances[c.instance].org == c.org && c.action == "reject"
    requires !Closed(w.instances[c.instance]) && w.instances[c.instance].current in tpl.steps && c.actor < |users|
    ensures var r, inst := Act(tpl, users, w, c, NOTHING_FAILS), w.instances[c.instance];
      var t := FirstListed(tpl, inst.current, c.choice);
      && (r.err.None? <==> t.None? || Admits(users, t.value.roles, c.actor))
      && (t.None? <==> c.choice.None? || forall x | x in tpl.transitions :: x.from != inst.current)
      && (r.err.None? ==>
            && r.world.instances == w.instances[c.instance := inst.(status := Completed)]
            && r.world.bookings == if inst.booking.None? then w.bookings
                                   else OutcomeApplied(w.bookings, c.org, inst.booking.value, false))
  {
    var inst := w.instances[c.instance];
    var outs, t := Outbound(tpl, inst.current), FirstListed(tpl, inst.current, c.choice);
    HasFirst(outs);
    AdmitsMeans(users, if t.Some? then t.value.roles else [], c.actor);
    if x :| x in tpl.transitions && x.from == inst.current { assert x in outs; }
  }

  /** The smallest case: somebody without any role may not reject the instance, unless its transitions
      cannot be read. */
  lemma AnybodyMayReject()
    ensures var w, stranger := InSecondStep(), [User(1, None, true)];
      && Act(ThreeSteps(), stranger, w, Call(1, 0, "reject", 0, Some(0)), NOTHING_FAILS)
           == Outcome(w, Some(NotPermitted))
      && Act(ThreeSteps(), stranger, w, Call(1, 0, "reject", 0, None), NOTHING_FAILS).err.None?
  {
    ApprovalListed();
    RejectionIsGrantedIff(ThreeSteps(), [User(1, None, true)], InSecondStep(), Call(1, 0, "reject", 0, None));
  }
}

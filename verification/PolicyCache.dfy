/** The password policy of each organisation: a table with a global fallback, a cache in front of
    it, and the policy loaded when the service started. Any read or write may fail. */
module PolicyCache {
  import opened Prelude
  import opened PasswordRules
  import opened Runs
  import PasswordHistory

  /** DefaultPasswordPolicy. */
  const DEFAULT := Policy(8, true, true, true, true, 5, 30, Some(90), 6, 5, 30)

  /** A request; None leaves the field as it is. Four fields have a second name. */
  datatype Request = Request(
    minLength: Option<int>, upper: Option<bool>, lower: Option<bool>, numbers: Option<bool>,
    requireSpecialChars: Option<bool>, requireSpecial: Option<bool>,
    maxFailedAttempts: Option<int>, maxAttempts: Option<int>,
    lockoutDurationMins: Option<int>, lockoutMinutes: Option<int>,
    passwordExpiryDays: Option<int>, expiryDays: Option<int>,
    otpLength: Option<int>, otpMins: Option<int>, sessionMins: Option<int>)

  /** The first of two names of a field, if it is given. */
  function FirstNamed<T>(first: Option<T>, second: Option<T>): Option<T> { if first.Some? then first else second }

  function GetOr<T>(wanted: Option<T>, otherwise: T): T { if wanted.Some? then wanted.value else otherwise }

  function Merge(p: Policy, r: Request): Policy {
    Policy(
      GetOr(r.minLength, p.minLength), GetOr(r.upper, p.upper), GetOr(r.lower, p.lower), GetOr(r.numbers, p.numbers),
      GetOr(FirstNamed(r.requireSpecialChars, r.requireSpecial), p.special),
      GetOr(FirstNamed(r.maxFailedAttempts, r.maxAttempts), p.maxAttempts),
      GetOr(FirstNamed(r.lockoutDurationMins, r.lockoutMinutes), p.lockoutMins),
      FirstNamed(FirstNamed(r.passwordExpiryDays, r.expiryDays), p.expiryDays),
      GetOr(r.otpLength, p.otpLength), GetOr(r.otpMins, p.otpMins), GetOr(r.sessionMins, p.sessionMins))
  }

  /** Everything that decides an answer: the table, and what the running service holds. */
  datatype Service = Service(global: Option<Policy>, rows: map<Id, Policy>, startup: Policy, cache: map<Id, Policy>)

  datatype Op =
    | Get(org: Id, readFails: bool)
    | Upsert(org: Id, request: Request, readFails: bool, writeFails: bool)
    | Restart(readFails: bool)

  datatype Error = OutOfRange | NotStored

  /** The organisation's row if there is one, otherwise the global row. */
  function Effective(s: Service, org: Id): Option<Policy> { if org in s.rows then Some(s.rows[org]) else s.global }

  function Read(s: Service, org: Id, readFails: bool): Option<Policy> { if readFails then None else Effective(s, org) }

  function AnswerTo(s: Service, org: Id, readFails: bool): Policy {
    if org == 0 then s.startup
    else if org in s.cache then s.cache[org]
    else GetOr(Read(s, org, readFails), s.startup)
  }

  function Base(s: Service, org: Id, readFails: bool): Policy {
    if readFails || org !in s.rows then s.startup else s.rows[org]
  }

  function UpsertError(s: Service, op: Op): Option<Error>
    requires op.Upsert?
  {
    if !InRanges(Merge(Base(s, op.org, op.readFails), op.request)) then Some(OutOfRange)
    else if op.writeFails then Some(NotStored)
    else None
  }

  function Step(s: Service, op: Op): Service {
    match op
    case Get(org, readFails) =>
      if org == 0 || org in s.cache || Read(s, org, readFails).None? then s
      else s.(cache := s.cache[org := Read(s, org, readFails).value])
    case Upsert(org, request, readFails, _) =>
      if UpsertError(s, op).Some? then s
      else
        var merged := Merge(Base(s, org, readFails), request);
        s.(rows := s.rows[org := merged], cache := s.cache[org := merged])
    case Restart(readFails) =>
      s.(startup := if readFails then DEFAULT else GetOr(s.global, DEFAULT), cache := map[])
  }

  /** A policy in memory, shared by whoever holds the reference. */
  class PolicyRef {
    var v: Policy

    constructor (v: Policy)
      ensures this.v == v
    { this.v := v; }
  }

  class PolicyService {
    // the table
    const global: Option<Policy>
    var rows: map<Id, Policy>
    // the service
    var startup: PolicyRef
    var orgPolicies: map<Id, PolicyRef>

    ghost function State(): Service
      reads this, startup, orgPolicies.Values
    { Service(global, rows, startup.v, map o | o in orgPolicies :: orgPolicies[o].v) }

    constructor (global: Option<Policy>, rows: map<Id, Policy>, readFails: bool)
      ensures State() == Step(Service(global, rows, DEFAULT, map[]), Restart(readFails))
    {
      this.global, this.rows, orgPolicies := global, rows, map[];
      var loaded := new PolicyRef(if readFails then DEFAULT else GetOr(global, DEFAULT));
      startup := loaded;
    }

    /** GetByOrg: a new object at each read, and whether it is the organisation's own row. */
    method GetByOrg(org: Id, readFails: bool) returns (p: PolicyRef?, own: bool)
      ensures (p == null) == Read(State(), org, readFails).None?
      ensures p != null ==> fresh(p) && p.v == Read(State(), org, readFails).value && own == (org in rows)
    {
      p, own := null, false;
      if readFails { return; }
      if org in rows {
        p := new PolicyRef(rows[org]);
        own := true;
      } else if global.Some? {
        p := new PolicyRef(global.value);
      }
    }

    /** No object handed out before is ever written to: the frame is this one object's own fields. */
    method GetPolicy(org: Id, readFails: bool) returns (p: PolicyRef)
      modifies this`orgPolicies
      ensures p.v == AnswerTo(old(State()), org, readFails)
      ensures State() == Step(old(State()), Get(org, readFails))
    {
      if org != 0 {
        if org in orgPolicies { return orgPolicies[org]; }
        var read, _ := GetByOrg(org, readFails);
        if read != null {
          orgPolicies := orgPolicies[org := read];
          return read;
        }
      }
      return startup;
    }

    /** The fields the request names, written into the object at hand. */
    method ApplyLetters(policy: PolicyRef, r: Request)
      modifies policy
      ensures policy.v == old(policy.v).(
        upper := GetOr(r.upper, old(policy.v).upper), lower := GetOr(r.lower, old(policy.v).lower),
        numbers := GetOr(r.numbers, old(policy.v).numbers))
    {
      if r.upper.Some? { policy.v := policy.v.(upper := r.upper.value); }
      if r.lower.Some? { policy.v := policy.v.(lower := r.lower.value); }
      if r.numbers.Some? { policy.v := policy.v.(numbers := r.numbers.value); }
    }

    method ApplyStrength(policy: PolicyRef, r: Request)
      modifies policy
      ensures policy.v == old(policy.v).(
        minLength := GetOr(r.minLength, old(policy.v).minLength),
        special := GetOr(FirstNamed(r.requireSpecialChars, r.requireSpecial), old(policy.v).special))
    {
      if r.minLength.Some? { policy.v := policy.v.(minLength := r.minLength.value); }
      if r.requireSpecialChars.Some? { policy.v := policy.v.(special := r.requireSpecialChars.value); }
      else if r.requireSpecial.Some? { policy.v := policy.v.(special := r.requireSpecial.value); }
    }

    method ApplyLimits(policy: PolicyRef, r: Request)
      modifies policy
      ensures policy.v == old(policy.v).(
        maxAttempts := GetOr(FirstNamed(r.maxFailedAttempts, r.maxAttempts), old(policy.v).maxAttempts),
        lockoutMins := GetOr(FirstNamed(r.lockoutDurationMins, r.lockoutMinutes), old(policy.v).lockoutMins),
        expiryDays := FirstNamed(FirstNamed(r.passwordExpiryDays, r.expiryDays), old(policy.v).expiryDays))
    {
      if r.maxFailedAttempts.Some? { policy.v := policy.v.(maxAttempts := r.maxFailedAttempts.value); }
      else if r.maxAttempts.Some? { policy.v := policy.v.(maxAttempts := r.maxAttempts.value); }
      if r.lockoutDurationMins.Some? { policy.v := policy.v.(lockoutMins := r.lockoutDurationMins.value); }
      else if r.lockoutMinutes.Some? { policy.v := policy.v.(lockoutMins := r.lockoutMinutes.value); }
      if r.passwordExpiryDays.Some? { policy.v := policy.v.(expiryDays := r.passwordExpiryDays); }
      else if r.expiryDays.Some? { policy.v := policy.v.(expiryDays := r.expiryDays); }
    }

    method ApplyCodes(policy: PolicyRef, r: Request)
      modifies policy
      ensures policy.v == old(policy.v).(
        otpLength := GetOr(r.otpLength, old(policy.v).otpLength), otpMins := GetOr(r.otpMins, old(policy.v).otpMins),
        sessionMins := GetOr(r.sessionMins, old(policy.v).sessionMins))
    {
      if r.otpLength.Some? { policy.v := policy.v.(otpLength := r.otpLength.value); }
      if r.otpMins.Some? { policy.v := policy.v.(otpMins := r.otpMins.value); }
      if r.sessionMins.Some? { policy.v := policy.v.(sessionMins := r.sessionMins.value); }
    }

    method Apply(policy: PolicyRef, r: Request)
      modifies policy
      ensures policy.v == Merge(old(policy.v), r)
    {
      ApplyStrength(policy, r);
      ApplyLetters(policy, r);
      ApplyLimits(policy, r);
      ApplyCodes(policy, r);
    }

    /** Where an update starts: the row as just read, or a copy of the startup policy. */
    method StartingPoint(org: Id, readFails: bool) returns (policy: PolicyRef)
      ensures fresh(policy) && policy.v == Base(State(), org, readFails)
    {
      var read, own := GetByOrg(org, readFails);
      if read == null || !own { policy := new PolicyRef(startup.v); } else { policy := read; }
    }

    method Keep(org: Id, policy: PolicyRef)
      modifies this`rows, this`orgPolicies
      ensures State() == old(State()).(
        rows := old(State()).rows[org := policy.v], cache := old(State()).cache[org := policy.v])
    {
      rows := rows[org := policy.v];
      orgPolicies := orgPolicies[org := policy];
    }

    method UpsertPolicy(org: Id, r: Request, readFails: bool, writeFails: bool)
      returns (p: PolicyRef?, err: Option<Error>)
      modifies this`rows, this`orgPolicies
      ensures err == UpsertError(old(State()), Upsert(org, r, readFails, writeFails))
      ensures State() == Step(old(State()), Upsert(org, r, readFails, writeFails))
      ensures (p == null) == err.Some? && (p != null ==> fresh(p) && p.v == State().rows[org])
    {
      var policy := StartingPoint(org, readFails);
      Apply(policy, r);
      assert State() == old(State());
      if !InRanges(policy.v) { return null, Some(OutOfRange); }
      if writeFails { return null, Some(NotStored); }
      Keep(org, policy);
      return policy, None;
    }

    /** What the handler offers an administrator: a password that the same policy accepts. */
    method Generate(org: Id, readFails: bool, drawFails: bool) returns (pw: Option<string>)
      modifies this`orgPolicies
      ensures pw.None? ==> drawFails
      ensures State() == Step(old(State()), Get(org, readFails))
      ensures pw.Some? ==>
        PasswordHistory.NewPasswordError(AnswerTo(old(State()), org, readFails), pw.value, None, [], false).None?
      ensures pw.Some? && Sane(old(State())) ==> |pw.value| == AnswerTo(old(State()), org, readFails).minLength
    {
      ghost var s := State();
      var p := GetPolicy(org, readFails);
      pw := GeneratePassword(p.v.minLength, p.v.upper, p.v.lower, p.v.numbers, p.v.special, drawFails);
      if Sane(s) { AnswersInRange(s, org, readFails); }
    }
  }

  // ---------- runs ----------

  /** The cache tells the truth, and every policy in play is within the accepted ranges. */
  ghost predicate Sane(s: Service) {
    && (forall o | o in s.cache :: Effective(s, o) == Some(s.cache[o]))
    && (forall o | o in s.rows :: InRanges(s.rows[o]))
    && (s.global.Some? ==> InRanges(s.global.value))
    && (s.startup == DEFAULT || Some(s.startup) == s.global)
  }

  function After(s: Service, ops: seq<Op>, n: nat): Service
    requires n <= |ops|
  { At(Step, s, ops, n) }

  lemma StepKeepsSane(s: Service, op: Op)
    requires Sane(s)
    ensures Sane(Step(s, op))
  {
    if op.Upsert? && UpsertError(s, op).None? {
      var t := Step(s, op);
      forall o | o in t.cache ensures Effective(t, o) == Some(t.cache[o]) {
        if o != op.org { assert Effective(t, o) == Effective(s, o); }
      }
    }
  }

  lemma AnswersInRange(s: Service, org: Id, readFails: bool)
    requires Sane(s)
    ensures InRanges(AnswerTo(s, org, readFails))
  {
    if org in s.cache { assert Effective(s, org) == Some(s.cache[org]); }
  }

  lemma RunKeepsSane(s: Service, ops: seq<Op>, n: nat)
    requires Sane(s) && n <= |ops|
    ensures Sane(After(s, ops, n))
  {
    forall s, o {:trigger Step(s, o)} | Sane(s) ensures Sane(Step(s, o)) { StepKeepsSane(s, o); }
    Always(Step, s, ops, (s: Service) => Sane(s), n);
  }

  /** After any calls, accepted, rejected or struck by faults: what is answered is within the ranges,
      and it is the stored effective policy exactly if that was cached, can be read, or is what the
      service started with. */
  lemma AnswersOverRuns(s: Service, ops: seq<Op>, org: Id, readFails: bool)
    requires Sane(s)
    ensures var t := After(s, ops, |ops|);
      && InRanges(AnswerTo(t, org, readFails))
      && (forall o | o in t.cache :: Effective(t, o) == Some(t.cache[o]))
      && (org != 0 && Effective(t, org).Some? ==>
            ((Some(AnswerTo(t, org, readFails)) == Effective(t, org)) <==>
             (org in t.cache || !readFails || Some(t.startup) == Effective(t, org))))
  {
    RunKeepsSane(s, ops, |ops|);
    AnswersInRange(After(s, ops, |ops|), org, readFails);
  }

  /** Operations that leave an organisation's policy alone. */
  ghost predicate Elsewhere(ops: seq<Op>, org: Id, from: nat, to: nat)
    requires from <= to <= |ops|
  { forall k | from <= k < to :: !ops[k].Restart? && (ops[k].Upsert? ==> ops[k].org != org) }

  lemma {:induction false} RowsStay(s: Service, ops: seq<Op>, org: Id, from: nat, to: nat)
    requires from <= to <= |ops| && Elsewhere(ops, org, from, to)
    ensures var a, b := After(s, ops, from), After(s, ops, to);
      && b.startup == a.startup
      && (org in a.cache ==> org in b.cache && b.cache[org] == a.cache[org])
  {
    if from < to { RowsStay(s, ops, org, from, to - 1); }
  }

  /** Read your writes: once accepted, a policy is answered from then on, even while every read
      fails and whatever happens to other organisations, exactly if its owner is an organisation;
      stored under the nil id it is answered to nobody, unless it changed nothing. */
  lemma AcceptedPolicyIsInForce(s: Service, ops: seq<Op>, k: nat, m: nat, readFails: bool)
    requires k < m <= |ops| && ops[k].Upsert? && UpsertError(After(s, ops, k), ops[k]).None?
    requires Elsewhere(ops, ops[k].org, k + 1, m)
    ensures var a, org := After(s, ops, k), ops[k].org;
      var wanted := Merge(Base(a, org, ops[k].readFails), ops[k].request);
      AnswerTo(After(s, ops, m), org, readFails) == wanted <==> org != 0 || a.startup == wanted
  {
    RowsStay(s, ops, ops[k].org, k + 1, m);
  }

  /** What a restart leaves: the table, an empty cache, and the global policy, or if that cannot be read
      the one built in. */
  lemma RestartLeaves(s: Service, readFails: bool)
    ensures var t := Step(s, Restart(readFails));
      && t.global == s.global && t.rows == s.rows && t.cache == map[]
      && (!readFails && s.global.Some? ==> t.startup == s.global.value)
      && (readFails || s.global.None? ==>
            && t.startup.minLength == 8 && t.startup.upper && t.startup.lower && t.startup.numbers && t.startup.special
            && t.startup.maxAttempts == 5 && t.startup.lockoutMins == 30 && t.startup.expiryDays == Some(90)
            && t.startup.otpLength == 6 && t.startup.otpMins == 5 && t.startup.sessionMins == 30)
  {}

  /** A read changes nothing but the cache, and there only the entry asked for. */
  lemma GetLeaves(s: Service, org: Id, readFails: bool, o: Id)
    ensures var t := Step(s, Get(org, readFails));
      && t == s.(cache := t.cache) && (o != org ==> (o in t.cache <==> o in s.cache))
      && (o in s.cache ==> o in t.cache && t.cache[o] == s.cache[o])
  {}

  /** What was once read for an organisation is answered from then on, while every read fails and whatever
      happens to others. */
  lemma OnceReadIsKept(s: Service, ops: seq<Op>, k: nat, m: nat, readFails: bool)
    requires Sane(s) && k < m <= |ops| && ops[k].Get? && !ops[k].readFails && ops[k].org != 0
    requires Elsewhere(ops, ops[k].org, k + 1, m) && Effective(After(s, ops, k), ops[k].org).Some?
    ensures Some(AnswerTo(After(s, ops, m), ops[k].org, readFails)) == Effective(After(s, ops, k), ops[k].org)
  {
    RunKeepsSane(s, ops, k);
    assert ops[k].org in After(s, ops, k + 1).cache;
    RowsStay(s, ops, ops[k].org, k + 1, m);
  }

  /** The two policies agree wherever the request is silent. */
  predicate AgreeOutside(r: Request, p: Policy, q: Policy) {
    && (r.minLength.None? ==> p.minLength == q.minLength)
    && (r.upper.None? ==> p.upper == q.upper)
    && (r.lower.None? ==> p.lower == q.lower)
    && (r.numbers.None? ==> p.numbers == q.numbers)
    && (r.requireSpecialChars.None? && r.requireSpecial.None? ==> p.special == q.special)
    && (r.maxFailedAttempts.None? && r.maxAttempts.None? ==> p.maxAttempts == q.maxAttempts)
    && (r.lockoutDurationMins.None? && r.lockoutMinutes.None? ==> p.lockoutMins == q.lockoutMins)
    && (r.passwordExpiryDays.None? && r.expiryDays.None? ==> p.expiryDays == q.expiryDays)
    && (r.otpLength.None? ==> p.otpLength == q.otpLength)
    && (r.otpMins.None? ==> p.otpMins == q.otpMins)
    && (r.sessionMins.None? ==> p.sessionMins == q.sessionMins)
  }

  /** An accepted update of an existing row leaves the unmentioned fields as they were exactly if
      the row could be read or the startup policy happens to agree with it on all of them. */
  lemma UnmentionedFieldsSurviveIff(s: Service, op: Op)
    requires op.Upsert? && op.org in s.rows && UpsertError(s, op).None?
    ensures AgreeOutside(op.request, Step(s, op).rows[op.org], s.rows[op.org])
      <==> !op.readFails || AgreeOutside(op.request, s.startup, s.rows[op.org])
  {
    var merged := Merge(Base(s, op.org, op.readFails), op.request);
    assert Step(s, op).rows[op.org] == merged;
    assert AgreeOutside(op.request, merged, Base(s, op.org, op.readFails));
  }

  /** The policy has every value the request names, the first of two names winning. */
  predicate Obeys(r: Request, p: Policy) {
    && (r.minLength.Some? ==> p.minLength == r.minLength.value)
    && (r.upper.Some? ==> p.upper == r.upper.value)
    && (r.lower.Some? ==> p.lower == r.lower.value)
    && (r.numbers.Some? ==> p.numbers == r.numbers.value)
    && (r.requireSpecialChars.Some? ==> p.special == r.requireSpecialChars.value)
    && (r.requireSpecialChars.None? && r.requireSpecial.Some? ==> p.special == r.requireSpecial.value)
    && (r.maxFailedAttempts.Some? ==> p.maxAttempts == r.maxFailedAttempts.value)
    && (r.maxFailedAttempts.None? && r.maxAttempts.Some? ==> p.maxAttempts == r.maxAttempts.value)
    && (r.lockoutDurationMins.Some? ==> p.lockoutMins == r.lockoutDurationMins.value)
    && (r.lockoutDurationMins.None? && r.lockoutMinutes.Some? ==> p.lockoutMins == r.lockoutMinutes.value)
    && (r.passwordExpiryDays.Some? ==> p.expiryDays == r.passwordExpiryDays)
    && (r.passwordExpiryDays.None? && r.expiryDays.Some? ==> p.expiryDays == r.expiryDays)
    && (r.otpLength.Some? ==> p.otpLength == r.otpLength.value)
    && (r.otpMins.Some? ==> p.otpMins == r.otpMins.value)
    && (r.sessionMins.Some? ==> p.sessionMins == r.sessionMins.value)
  }

  /** What a request asks for: its values where it names any, elsewhere those of the row it was read
      from, or, where there is none or it cannot be read, of the startup policy. */
  predicate AskedFor(s: Service, op: Op, p: Policy)
    requires op.Upsert?
  {
    && Obeys(op.request, p)
    && AgreeOutside(op.request, p, if !op.readFails && op.org in s.rows then s.rows[op.org] else s.startup)
  }

  /** There is one such policy; it is what is stored and cached, exactly if it is within the ranges and
      the write goes through. */
  lemma UpdateIsAcceptedIff(s: Service, op: Op, p: Policy)
    requires op.Upsert? && AskedFor(s, op, p)
    ensures UpsertError(s, op).None? <==>
      && !op.writeFails && 6 <= p.minLength <= 128 && 1 <= p.maxAttempts <= 100 && 1 <= p.lockoutMins <= 10080
      && (p.expiryDays.Some? ==> 1 <= p.expiryDays.value <= 365)
      && 4 <= p.otpLength <= 10 && 1 <= p.otpMins <= 60 && 1 <= p.sessionMins <= 10080
    ensures Step(s, op) == if UpsertError(s, op).Some? then s
                           else s.(rows := s.rows[op.org := p], cache := s.cache[op.org := p])
  {
    assert p == Merge(Base(s, op.org, op.readFails), op.request);
  }

  lemma SomethingIsAskedFor(s: Service, op: Op)
    requires op.Upsert?
    ensures AskedFor(s, op, Merge(Base(s, op.org, op.readFails), op.request))
  {
    MergeObeys(Base(s, op.org, op.readFails), op.request);
  }

  lemma MergeObeys(p: Policy, r: Request)
    ensures Obeys(r, Merge(p, r)) && AgreeOutside(r, Merge(p, r), p)
  {}

  /** Over runs: what an organisation's accepted request named is answered from then on, through faults
      and the calls of others, field by field. */
  lemma NamedFieldsAreInForce(s: Service, ops: seq<Op>, k: nat, m: nat, readFails: bool)
    requires k < m <= |ops| && ops[k].Upsert? && UpsertError(After(s, ops, k), ops[k]).None? && ops[k].org != 0
    requires Elsewhere(ops, ops[k].org, k + 1, m)
    ensures AskedFor(After(s, ops, k), ops[k], AnswerTo(After(s, ops, m), ops[k].org, readFails))
  {
    AcceptedPolicyIsInForce(s, ops, k, m, readFails);
    SomethingIsAskedFor(After(s, ops, k), ops[k]);
  }

  const SILENT := Request(None, None, None, None, None, None, None, None, None, None, None, None, None, None, None)

  /** Asking for one more character while the row cannot be read relaxes the lockout as well. */
  lemma FailedReadResetsTheRest()
    ensures var strict := DEFAULT.(maxAttempts := 3, lockoutMins := 600);
      var s := Service(Some(DEFAULT), map[1 := strict], DEFAULT, map[1 := strict]);
      var op := Upsert(1, SILENT.(minLength := Some(9)), true, false);
      && Sane(s) && UpsertError(s, op).None?
      && AnswerTo(Step(s, op), 1, false) == DEFAULT.(minLength := 9)
      && AnswerTo(Step(s, op), 1, false).maxAttempts == 5 && AnswerTo(Step(s, op), 1, false).lockoutMins == 30
      && AnswerTo(Step(s, op), 1, false) != strict.(minLength := 9)
  {
    var strict := DEFAULT.(maxAttempts := 3, lockoutMins := 600);
    var s := Service(Some(DEFAULT), map[1 := strict], DEFAULT, map[1 := strict]);
    assert Effective(s, 1) == Some(strict);
  }
}

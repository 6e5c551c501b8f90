/** Creating a run from a single-use plan, idempotently by key. */
module RunCreation {
  import opened Outcomes

  datatype RunPlan = RunPlan(
    planHash: string,
    inputHash: string,
    workflow: string,
    subject: string,
    authorized: bool,
    quoteExpiresAt: int,
    deadline: int)

  datatype Run = Run(runId: string, planId: string, key: string, intention: string)

  datatype Creation = Creation(key: string, intention: string, run: Run)

  datatype StoredPlan = StoredPlan(plan: RunPlan, consumedBy: Option<Creation>)

  datatype Binding = Binding(inputHash: string, workflow: string)

  datatype Command = Command(key: string, intention: string, planId: string, actor: string, expected: Option<Binding>)

  datatype Queued = Queued(runId: string, planId: string)

  datatype Dispatch = Dispatch(runId: string, version: nat)

  /** The stored plans and runs of a workspace, with the events and outbox messages written beside them. */
  datatype State = State(
    plans: map<string, StoredPlan>,
    byKey: map<string, Creation>,
    runs: seq<Run>,
    events: seq<Queued>,
    outbox: seq<Dispatch>)

  datatype Failure =
    | KeyReused
    | PlanNotFound
    | IntentionMismatch
    | InputMismatch
    | WorkflowMismatch
    | PlanAlreadyConsumed
    | DomainRejected
    | IdentifierTaken

  datatype Success = Success(run: Run, replayed: bool)

  type Answer = Result<Success, Failure>

  const Nothing := State(map[], map[], [], [], [])

  function Replay(prior: Creation, c: Command): Answer {
    if prior.intention != c.intention then Err(KeyReused) else Ok(Success(prior.run, true))
  }

  function BindingFailure(plan: RunPlan, expected: Option<Binding>): Option<Failure> {
    match expected
    case None => None
    case Some(b) =>
      if plan.inputHash != b.inputHash then Some(InputMismatch)
      else if plan.workflow != b.workflow then Some(WorkflowMismatch)
      else None
  }

  /** The kernel's decision; `authorized` stands for the checks on the plan alone. */
  predicate Admits(plan: RunPlan, actor: string, now: int) {
    plan.authorized && actor == plan.subject && now < plan.quoteExpiresAt && now < plan.deadline
  }

  predicate UsesRunId(s: State, runId: string) {
    exists i :: 0 <= i < |s.runs| && s.runs[i].runId == runId
  }

  /** Checks made of a stored plan before any replay or creation. */
  function PlanFailure(s: State, c: Command): Option<Failure> {
    if c.planId !in s.plans then Some(PlanNotFound)
    else if s.plans[c.planId].plan.planHash != c.intention then Some(IntentionMismatch)
    else BindingFailure(s.plans[c.planId].plan, c.expected)
  }

  function Insert(s: State, c: Command, runId: string): State
    requires c.planId in s.plans
  {
    var run := Run(runId, c.planId, c.key, c.intention);
    var creation := Creation(c.key, c.intention, run);
    State(s.plans[c.planId := s.plans[c.planId].(consumedBy := Some(creation))],
          s.byKey[c.key := creation],
          s.runs + [run],
          s.events + [Queued(runId, c.planId)],
          s.outbox + [Dispatch(runId, 1)])
  }

  /** `runId` is the next identifier; a taken one aborts the transaction. */
  function Create(s: State, c: Command, runId: string, now: int): (State, Answer) {
    if c.key in s.byKey && s.byKey[c.key].intention != c.intention then (s, Err(KeyReused))
    else if PlanFailure(s, c).Some? then (s, Err(PlanFailure(s, c).value))
    else if c.key in s.byKey then (s, Replay(s.byKey[c.key], c))
    else
      match s.plans[c.planId].consumedBy
      case Some(creation) =>
        if creation.key == c.key then (s, Replay(creation, c)) else (s, Err(PlanAlreadyConsumed))
      case None =>
        if !Admits(s.plans[c.planId].plan, c.actor, now) then (s, Err(DomainRejected))
        else if UsesRunId(s, runId) then (s, Err(IdentifierTaken))
        else (Insert(s, c, runId), Ok(Success(Run(runId, c.planId, c.key, c.intention), false)))
  }

  function StorePlan(s: State, planId: string, plan: RunPlan): State {
    if planId in s.plans then s else s.(plans := s.plans[planId := StoredPlan(plan, None)])
  }

  /** The unit of work over the stored tables, written one after another. */
  class RunStore {
    var plans: map<string, StoredPlan>
    var byKey: map<string, Creation>
    var runs: seq<Run>
    var events: seq<Queued>
    var outbox: seq<Dispatch>

    /** Keys, consumed plans, runs, events and messages name each other one to one. */
    ghost predicate Valid()
      reads this
    {
      Coherent(Tables()) && OneToOne(Tables())
    }

    constructor ()
      ensures Valid() && Tables() == Nothing
    {
      plans, byKey := map[], map[];
      runs, events, outbox := [], [], [];
    }

    function Tables(): State
      reads this
    {
      State(plans, byKey, runs, events, outbox)
    }

    /** A plan becomes available; a stored one is never replaced. */
    method AddPlan(planId: string, plan: RunPlan)
      requires Valid()
      modifies this
      ensures Valid() && Tables() == StorePlan(old(Tables()), planId, plan)
    {
      AddPlanKeeps(Tables(), planId, plan);
      if planId !in plans {
        plans := plans[planId := StoredPlan(plan, None)];
      }
    }

    /** After a success the key has exactly one run, and a run was added exactly when it is not a replay. */
    method CreateRun(c: Command, runId: string, now: int) returns (answer: Answer)
      requires Valid()
      modifies this
      ensures Valid()
      ensures (Tables(), answer) == Create(old(Tables()), c, runId, now)
      ensures answer.Ok? ==>
                answer.value.run in runs && forall r <- runs :: r.key == c.key ==> r == answer.value.run
      ensures |runs| == |old(runs)| + if answer.Ok? && !answer.value.replayed then 1 else 0
      ensures answer.Ok? && answer.value.replayed ==> Tables() == old(Tables())
      ensures answer.Ok? && !answer.value.replayed <==> MakesRun(old(Tables()), c, runId, now)
    {
      NewRunIff(Tables(), c, runId, now);
      StepKeeps(Tables(), Submit(c, runId, now));
      AnswerIsTheRun(Tables(), c, runId, now);
      var prior := c.key in byKey;
      if prior && byKey[c.key].intention != c.intention {
        return Err(KeyReused);
      }
      if c.planId !in plans {
        return Err(PlanNotFound);
      }
      var stored := plans[c.planId];
      if stored.plan.planHash != c.intention {
        return Err(IntentionMismatch);
      }
      var mismatch := BindingFailure(stored.plan, c.expected);
      if mismatch.Some? {
        return Err(mismatch.value);
      }
      if prior {
        return Replay(byKey[c.key], c);
      }
      if stored.consumedBy.Some? {
        if stored.consumedBy.value.key == c.key {
          return Replay(stored.consumedBy.value, c);
        }
        return Err(PlanAlreadyConsumed);
      }
      if !Admits(stored.plan, c.actor, now) {
        return Err(DomainRejected);
      }
      if UsesRunId(Tables(), runId) {
        return Err(IdentifierTaken);
      }
      var run := Run(runId, c.planId, c.key, c.intention);
      var creation := Creation(c.key, c.intention, run);
      runs := runs + [run];
      byKey := byKey[c.key := creation];
      events := events + [Queued(runId, c.planId)];
      outbox := outbox + [Dispatch(runId, 1)];
      plans := plans[c.planId := stored.(consumedBy := Some(creation))];
      return Ok(Success(run, false));
    }
  }

  // ----- Every sequence of commands -----

  datatype Event = AddPlan(planId: string, plan: RunPlan) | Submit(command: Command, runId: string, now: int)

  function Step(s: State, e: Event): State {
    match e
    case AddPlan(planId, plan) => StorePlan(s, planId, plan)
    case Submit(command, runId, now) => Create(s, command, runId, now).0
  }

  function Play(s: State, events: seq<Event>): State
    decreases |events|
  {
    if events == [] then s else Play(Step(s, events[0]), events[1..])
  }

  ghost predicate KeyCoherent(s: State, k: string)
    requires k in s.byKey
  {
    var c := s.byKey[k];
    c.key == k && c.run.key == k && c.run.intention == c.intention
    && c.run in s.runs && c.run.planId in s.plans && s.plans[c.run.planId].consumedBy == Some(c)
    && s.plans[c.run.planId].plan.planHash == c.intention
  }

  ghost predicate PlanCoherent(s: State, p: string)
    requires p in s.plans
  {
    s.plans[p].consumedBy.Some? ==>
      var c := s.plans[p].consumedBy.value;
      c.key in s.byKey && s.byKey[c.key] == c && c.run.planId == p
  }

  ghost predicate RunCoherent(s: State, i: nat)
    requires i < |s.runs|
  {
    s.runs[i].key in s.byKey && s.byKey[s.runs[i].key].run == s.runs[i]
  }

  /** Keys, consumed plans and runs name each other. */
  ghost predicate Coherent(s: State) {
    (forall k {:trigger KeyCoherent(s, k)} :: k in s.byKey ==> KeyCoherent(s, k))
    && (forall p {:trigger PlanCoherent(s, p)} :: p in s.plans ==> PlanCoherent(s, p))
    && (forall i {:trigger RunCoherent(s, i)} :: 0 <= i < |s.runs| ==> RunCoherent(s, i))
  }

  /** Runs are distinct in every identity, each with its one event and its one message. */
  ghost predicate OneToOne(s: State) {
    |s.events| == |s.runs| == |s.outbox|
    && (forall i :: 0 <= i < |s.runs| ==>
          s.events[i] == Queued(s.runs[i].runId, s.runs[i].planId) && s.outbox[i] == Dispatch(s.runs[i].runId, 1))
    && (forall i, j :: 0 <= i < j < |s.runs| ==>
          s.runs[i].runId != s.runs[j].runId && s.runs[i].key != s.runs[j].key && s.runs[i].planId != s.runs[j].planId)
  }

  lemma StepKeeps(s: State, e: Event)
    requires Coherent(s) && OneToOne(s)
    ensures Coherent(Step(s, e)) && OneToOne(Step(s, e))
    ensures forall k :: k in s.byKey ==> k in Step(s, e).byKey && Step(s, e).byKey[k] == s.byKey[k]
    ensures forall p :: p in s.plans ==> p in Step(s, e).plans && Step(s, e).plans[p].plan == s.plans[p].plan
  {
    match e
    case AddPlan(planId, plan) => AddPlanKeeps(s, planId, plan);
    case Submit(c, runId, now) =>
      if Create(s, c, runId, now).0 != s {
        InsertCoherent(s, c, runId);
        InsertOneToOne(s, c, runId);
      }
  }

  lemma AddPlanKeeps(s: State, planId: string, plan: RunPlan)
    requires Coherent(s) && OneToOne(s)
    ensures Coherent(StorePlan(s, planId, plan)) && OneToOne(StorePlan(s, planId, plan))
  {
    var s' := StorePlan(s, planId, plan);
    forall k | k in s'.byKey ensures KeyCoherent(s', k) { assert KeyCoherent(s, k); }
    forall p | p in s'.plans ensures PlanCoherent(s', p) {
      if p in s.plans { assert PlanCoherent(s, p); }
    }
    forall i | 0 <= i < |s'.runs| ensures RunCoherent(s', i) { assert RunCoherent(s, i); }
  }

  ghost predicate Creatable(s: State, c: Command, runId: string) {
    c.key !in s.byKey && c.planId in s.plans && s.plans[c.planId].consumedBy.None?
    && s.plans[c.planId].plan.planHash == c.intention && !UsesRunId(s, runId)
  }

  lemma InsertCoherent(s: State, c: Command, runId: string)
    requires Coherent(s) && Creatable(s, c, runId)
    ensures Coherent(Insert(s, c, runId))
  {
    var s' := Insert(s, c, runId);
    forall k | k in s'.byKey ensures KeyCoherent(s', k) {
      if k != c.key { assert KeyCoherent(s, k); }
    }
    forall p | p in s'.plans ensures PlanCoherent(s', p) {
      if p != c.planId { assert PlanCoherent(s, p); }
    }
    forall i | 0 <= i < |s'.runs| ensures RunCoherent(s', i) {
      if i < |s.runs| { assert RunCoherent(s, i); }
    }
  }

  lemma InsertOneToOne(s: State, c: Command, runId: string)
    requires Coherent(s) && OneToOne(s) && Creatable(s, c, runId)
    ensures OneToOne(Insert(s, c, runId))
  {
    forall i | 0 <= i < |s.runs|
      ensures s.runs[i].runId != runId && s.runs[i].key != c.key && s.runs[i].planId != c.planId
    {
      assert RunCoherent(s, i);
      assert KeyCoherent(s, s.runs[i].key);
    }
  }

  lemma {:induction false} PlayKeeps(s: State, events: seq<Event>)
    requires Coherent(s) && OneToOne(s)
    ensures Coherent(Play(s, events)) && OneToOne(Play(s, events))
    ensures forall k :: k in s.byKey ==> k in Play(s, events).byKey && Play(s, events).byKey[k] == s.byKey[k]
    ensures forall p :: p in s.plans ==> p in Play(s, events).plans && Play(s, events).plans[p].plan == s.plans[p].plan
    decreases |events|
  {
    if events != [] {
      StepKeeps(s, events[0]);
      PlayKeeps(Step(s, events[0]), events[1..]);
    }
  }

  /** Over any commands: one run per plan, per key and per identifier, each with one event and one message. */
  lemma RunsAreOneToOne(events: seq<Event>, i: nat, j: nat)
    requires i < j < |Play(Nothing, events).runs|
    ensures var s := Play(Nothing, events);
            s.runs[i].planId != s.runs[j].planId && s.runs[i].key != s.runs[j].key
            && s.runs[i].runId != s.runs[j].runId
            && |s.events| == |s.outbox| == |s.runs|
            && s.events[i].runId == s.outbox[i].runId == s.runs[i].runId
  {
    PlayKeeps(Nothing, events);
  }

  /** What a command must meet to make a new run: a fresh key, its own unconsumed plan, and a quote still valid. */
  ghost predicate MakesRun(s: State, c: Command, runId: string, now: int) {
    c.key !in s.byKey && c.planId in s.plans && s.plans[c.planId].consumedBy.None?
    && (forall r <- s.runs :: r.runId != runId)
    && var plan := s.plans[c.planId].plan;
       plan.planHash == c.intention && plan.authorized && c.actor == plan.subject
       && now < plan.quoteExpiresAt && now < plan.deadline
       && (c.expected.Some? ==> c.expected.value.inputHash == plan.inputHash && c.expected.value.workflow == plan.workflow)
  }

  /** A new run is made exactly on these conditions, with one row in each table and its plan consumed; nothing else writes. */
  lemma NewRunIff(s: State, c: Command, runId: string, now: int)
    ensures var (s', answer) := Create(s, c, runId, now);
            var run := Run(runId, c.planId, c.key, c.intention);
            (answer == Ok(Success(run, false)) <==> MakesRun(s, c, runId, now))
            && (answer.Ok? && !answer.value.replayed <==> MakesRun(s, c, runId, now))
            && (if MakesRun(s, c, runId, now) then
                  s'.runs == s.runs + [run] && s'.events == s.events + [Queued(runId, c.planId)]
                  && s'.outbox == s.outbox + [Dispatch(runId, 1)]
                  && s'.byKey == s.byKey[c.key := Creation(c.key, c.intention, run)]
                  && s'.plans.Keys == s.plans.Keys
                  && (forall p :: p in s.plans && p != c.planId ==> s'.plans[p] == s.plans[p])
                  && s'.plans[c.planId] == StoredPlan(s.plans[c.planId].plan, Some(Creation(c.key, c.intention, run)))
                else s' == s)
  {
    assert UsesRunId(s, runId) <==> exists r :: r in s.runs && r.runId == runId by {
      if r :| r in s.runs && r.runId == runId {
        var i :| 0 <= i < |s.runs| && s.runs[i] == r;
      }
      if UsesRunId(s, runId) {
        var i :| 0 <= i < |s.runs| && s.runs[i].runId == runId;
        assert s.runs[i] in s.runs;
      }
    }
  }

  lemma AcceptedIsStored(s: State, c: Command, runId: string, now: int)
    requires Coherent(s) && OneToOne(s) && Create(s, c, runId, now).1.Ok?
    ensures var (s', answer) := Create(s, c, runId, now);
            c.key in s'.byKey && s'.byKey[c.key].run == answer.value.run && s'.byKey[c.key].intention == c.intention
            && c.planId in s'.plans && s'.plans[c.planId].plan.planHash == c.intention
            && PlanFailure(s', c).None?
  {
    if c.planId in s.plans { assert PlanCoherent(s, c.planId); }
  }

  lemma AnswerIsTheRun(s: State, c: Command, runId: string, now: int)
    requires Coherent(s) && OneToOne(s)
    ensures var (s', answer) := Create(s, c, runId, now);
            answer.Ok? ==>
              answer.value.run in s'.runs && answer.value.run.key == c.key
              && forall r <- s'.runs :: r.key == c.key ==> r == answer.value.run
  {
    var (s', answer) := Create(s, c, runId, now);
    StepKeeps(s, Submit(c, runId, now));
    if answer.Ok? {
      AcceptedIsStored(s, c, runId, now);
      assert KeyCoherent(s', c.key);
      forall r | r in s'.runs && r.key == c.key ensures r == answer.value.run {
        var i :| 0 <= i < |s'.runs| && s'.runs[i] == r;
        assert RunCoherent(s', i);
      }
    }
  }

  lemma KnownKeyAnswers(t: State, again: Command, runId: string, now: int)
    requires again.key in t.byKey
    ensures var (t', repeated) := Create(t, again, runId, now);
            var prior := t.byKey[again.key];
            t' == t
            && (repeated.Ok? ==> repeated.value == Success(prior.run, true))
            && (repeated.Ok? <==> again.intention == prior.intention && PlanFailure(t, again).None?)
            && (again.intention != prior.intention ==> repeated == Err(KeyReused))
  {
  }

  /**
   * A key names one run forever: whatever is submitted in between, a later command with the key returns
   * that run, or is refused for its intention or its plan, and changes nothing.
   */
  lemma KeyNamesOneRun(events: seq<Event>, later: seq<Event>, c: Command, again: Command, ids: (string, string),
                       now: int, now': int)
    requires Create(Play(Nothing, events), c, ids.0, now).1.Ok? && again.key == c.key
    ensures var (s, answer) := Create(Play(Nothing, events), c, ids.0, now);
            var t := Play(s, later);
            var (t', repeated) := Create(t, again, ids.1, now');
            t' == t
            && (repeated.Ok? ==> repeated.value == Success(answer.value.run, true))
            && (repeated.Ok? <==> again.intention == c.intention && PlanFailure(t, again).None?)
            && (again == c ==> repeated.Ok?)
            && (again.intention != c.intention ==> repeated == Err(KeyReused))
  {
    PlayKeeps(Nothing, events);
    var before := Play(Nothing, events);
    StepKeeps(before, Submit(c, ids.0, now));
    AcceptedIsStored(before, c, ids.0, now);
    var s := Create(before, c, ids.0, now).0;
    PlayKeeps(s, later);
    KnownKeyAnswers(Play(s, later), again, ids.1, now');
  }

  /** A plan consumed under the same key is always found by the key first: that branch is never taken. */
  lemma ConsumedBySameKeyIsUnreachable(events: seq<Event>, c: Command)
    requires var s := Play(Nothing, events);
             c.key !in s.byKey && c.planId in s.plans && s.plans[c.planId].consumedBy.Some?
    ensures Play(Nothing, events).plans[c.planId].consumedBy.value.key != c.key
  {
    PlayKeeps(Nothing, events);
    assert PlanCoherent(Play(Nothing, events), c.planId);
  }
}

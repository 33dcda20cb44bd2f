/**
  The worker's dispatch handler: claim, execute, publish, with named fault points.  Any number of
  calls run at once over one store, executor, producer and fault injector; each access to one of
  those is an atomic step.  What the store, executor and producer answer is chosen freely per step.
 */
module DispatchHandler {
  import opened Wrappers
  import opened Text
  import opened IdempotencyKeys

  datatype Point = BeforeClaim | AfterClaim | BeforeExecute | AfterExecute | BeforeResultPublish | AfterResultPublish

  /** Fault injection: at most `count` faults at one point; a delay fails only if the context is cancelled meanwhile. */
  datatype Injector = Injector(point: Point, delays: bool, count: nat)

  predicate Fires(inj: Injector, point: Point) {
    inj.point == point && inj.count > 0
  }

  function Spent(inj: Injector, point: Point): Injector {
    if Fires(inj, point) then inj.(count := inj.count - 1) else inj
  }

  predicate Fails(inj: Injector, point: Point, cancelled: bool) {
    Fires(inj, point) && (!inj.delays || cancelled)
  }

  datatype Event = Event(jobId: string, tenant: string, priority: int, attempt: int)

  datatype Status = Succeeded | RetryableFailure | TerminalFailure | DuplicateSkipped | Unknown

  /** An executor either fails to report or returns a status. */
  datatype Answer = ExecutorError | Ran(status: Status)

  predicate Reportable(a: Answer) {
    a.Ran? && !a.status.Unknown? && !a.status.DuplicateSkipped?
  }

  /** expires: Redis-like claims end after ttl; otherwise a claim lasts as long as the process. */
  datatype Config = Config(hasExecutor: bool, hasStore: bool, expires: bool, ttl: real, hasProducer: bool)

  datatype Outcome =
    | NoExecutor | Fault(point: Point) | BadKey | StoreError | Duplicate | BadTask
    | ExecuteError | BadStatus | PublishError | Completed

  datatype Pc =
    | AtStart | AtClaim | AtAfterClaim | AtBeforeExecute | AtExecute | AtAfterExecute
    | AtBeforePublish | AtPublish | AtAfterPublish | Done(outcome: Outcome)

  /** One call: its event and how far it got. */
  datatype Call = Call(event: Event, pc: Pc, ticket: Option<nat>, answer: Option<Answer>, published: bool)

  datatype Claim = Claim(call: int, key: string, start: real, end: real)

  /** What the calls share: the store, the fault budget, and the history of claims, executions and publishes. */
  datatype Shared = Shared(
    store: map<string, real>, injector: Injector, claims: seq<Claim>, executed: seq<int>, published: seq<int>,
    duplicates: nat, storeErrors: nat)

  /** The answers a step may get from its environment. */
  datatype Env = Env(now: real, cancelled: bool, storeFails: bool, storeApplied: bool, answer: Answer, publishOk: bool)

  function KeyOf(event: Event): Result<string, KeyError> {
    GoExecutionKey(event.jobId, event.attempt)
  }

  predicate ValidTask(event: Event) {
    TrimSpace(event.jobId) != [] && TrimSpace(event.tenant) != [] && event.priority >= 0
  }

  predicate FreeKey(cfg: Config, store: map<string, real>, key: string, now: real) {
    key !in store || (cfg.expires && store[key] <= now)
  }

  // ----- One step of one call -----

  function Begun(cfg: Config, event: Event): Call {
    Call(event, if cfg.hasExecutor then AtStart else Done(NoExecutor), None, None, false)
  }

  /** An injection point: stop with a fault or go on to `next`. */
  function Pass(sh: Shared, call: Call, point: Point, env: Env, next: Pc): (Shared, Call) {
    (sh.(injector := Spent(sh.injector, point)),
     call.(pc := if Fails(sh.injector, point, env.cancelled) then Done(Fault(point)) else next))
  }

  function ClaimStep(cfg: Config, sh: Shared, c: int, call: Call, env: Env): (Shared, Call) {
    var key := KeyOf(call.event);
    if key.Err? then (sh, call.(pc := Done(BadKey)))
    else
      var free, end := FreeKey(cfg, sh.store, key.value, env.now), env.now + cfg.ttl;
      if env.storeFails then
        (sh.(store := if free && env.storeApplied then sh.store[key.value := end] else sh.store, storeErrors := sh.storeErrors + 1),
         call.(pc := Done(StoreError)))
      else if !free then
        (sh.(duplicates := sh.duplicates + 1), call.(pc := Done(Duplicate)))
      else
        (sh.(store := sh.store[key.value := end], claims := sh.claims + [Claim(c, key.value, env.now, end)]),
         call.(pc := AtAfterClaim, ticket := Some(|sh.claims|)))
  }

  /** After the execution fault point: validate the status, and publish if there is a producer. */
  function AfterExecution(cfg: Config, call: Call): Pc
    requires call.answer.Some? && call.answer.value.Ran?
  {
    var status := call.answer.value.status;
    if status.Unknown? then Done(BadStatus)
    else if cfg.hasProducer && !status.DuplicateSkipped? then AtBeforePublish
    else Done(Completed)
  }

  function StepCall(cfg: Config, sh: Shared, c: int, call: Call, env: Env): (Shared, Call)
    requires call.pc.AtAfterExecute? ==> call.answer.Some? && call.answer.value.Ran?
  {
    match call.pc
    case AtStart => Pass(sh, call, BeforeClaim, env, if cfg.hasStore then AtClaim else AtBeforeExecute)
    case AtClaim => ClaimStep(cfg, sh, c, call, env)
    case AtAfterClaim => Pass(sh, call, AfterClaim, env, AtBeforeExecute)
    case AtBeforeExecute =>
      if !ValidTask(call.event) then (sh, call.(pc := Done(BadTask)))
      else Pass(sh, call, BeforeExecute, env, AtExecute)
    case AtExecute =>
      (sh.(executed := sh.executed + [c]),
       call.(answer := Some(env.answer), pc := if env.answer.ExecutorError? then Done(ExecuteError) else AtAfterExecute))
    case AtAfterExecute => Pass(sh, call, AfterExecute, env, AfterExecution(cfg, call))
    case AtBeforePublish => Pass(sh, call, BeforeResultPublish, env, AtPublish)
    case AtPublish =>
      if env.publishOk
      then (sh.(published := sh.published + [c]), call.(published := true, pc := AtAfterPublish))
      else (sh, call.(pc := Done(PublishError)))
    case AtAfterPublish => Pass(sh, call, AfterResultPublish, env, Done(Completed))
    case Done(_) => (sh, call)
  }

  // ----- Any number of calls -----

  datatype World = World(shared: Shared, calls: map<int, Call>)

  datatype Step = Begin(call: int, event: Event) | Advance(call: int, env: Env)

  ghost predicate Enabled(w: World, step: Step) {
    match step
    case Begin(c, _) => c !in w.calls
    case Advance(c, _) => c in w.calls
  }

  predicate Stages(call: Call) {
    call.pc.AtAfterExecute? ==> call.answer.Some? && call.answer.value.Ran?
  }

  function Apply(cfg: Config, w: World, step: Step): World {
    match step
    case Begin(c, event) => w.(calls := w.calls[c := Begun(cfg, event)])
    case Advance(c, env) =>
      if c in w.calls && Stages(w.calls[c])
      then
        var r := StepCall(cfg, w.shared, c, w.calls[c], env);
        World(r.0, w.calls[c := r.1])
      else w
  }

  /** How a call's position, ticket, answer and publication hang together. */
  predicate Consistent(cfg: Config, call: Call) {
    && Stages(call)
    && (call.answer.Some? && cfg.hasStore ==> call.ticket.Some?)
    && (call.published ==> call.answer.Some? && Reportable(call.answer.value))
    && (call.pc.AtExecute? || call.answer.Some? ==> ValidTask(call.event))
    && (call.pc == Done(BadTask) ==> !ValidTask(call.event))
    && (call.pc == Done(BadKey) ==> KeyOf(call.event).Err?)
    && (call.pc == Done(NoExecutor) <==> !cfg.hasExecutor)
    && (call.ticket.Some? || call.pc.AtClaim? || call.pc in {Done(BadKey), Done(StoreError), Done(Duplicate)} ==> cfg.hasStore)
    && match call.pc
       case AtStart => call.ticket.None? && call.answer.None? && !call.published
       case AtClaim => call.ticket.None? && call.answer.None? && !call.published
       case AtAfterClaim => call.ticket.Some? && call.answer.None? && !call.published
       case AtBeforeExecute => (cfg.hasStore ==> call.ticket.Some?) && call.answer.None? && !call.published
       case AtExecute => (cfg.hasStore ==> call.ticket.Some?) && call.answer.None? && !call.published
       case AtAfterExecute => !call.published
       case AtBeforePublish => cfg.hasProducer && call.answer.Some? && Reportable(call.answer.value) && !call.published
       case AtPublish => cfg.hasProducer && call.answer.Some? && Reportable(call.answer.value) && !call.published
       case AtAfterPublish => cfg.hasProducer && call.answer.Some? && Reportable(call.answer.value) && call.published
       case Done(o) => Ended(cfg, call, o)
  }

  /** What a call did, by how it ended. */
  predicate Ended(cfg: Config, call: Call, o: Outcome) {
    match o
    case NoExecutor => call.ticket.None? && call.answer.None? && !call.published
    case BadKey => call.ticket.None? && call.answer.None? && !call.published
    case StoreError => call.ticket.None? && call.answer.None? && !call.published
    case Duplicate => call.ticket.None? && call.answer.None? && !call.published
    case BadTask => call.answer.None? && !call.published
    case Fault(p) =>
      match p {
        case BeforeClaim => call.ticket.None? && call.answer.None? && !call.published
        case AfterClaim => call.ticket.Some? && call.answer.None? && !call.published
        case BeforeExecute => call.answer.None? && !call.published
        case AfterExecute => call.answer.Some? && !call.published
        case BeforeResultPublish => call.answer.Some? && !call.published
        case AfterResultPublish => call.answer.Some? && call.published
      }
    case ExecuteError => call.answer == Some(ExecutorError) && !call.published
    case BadStatus => call.answer == Some(Ran(Unknown)) && !call.published
    case PublishError => call.answer.Some? && Reportable(call.answer.value) && !call.published
    case Completed => call.answer.Some? && call.answer.value.Ran? && (call.published <==> cfg.hasProducer && Reportable(call.answer.value))
  }

  lemma StepConsistent(cfg: Config, sh: Shared, c: int, call: Call, env: Env)
    requires Consistent(cfg, call)
    ensures Consistent(cfg, StepCall(cfg, sh, c, call, env).1)
  {
    hide KeyOf, ValidTask, Fails, Spent, FreeKey;
  }

  predicate Distinct(ids: seq<int>) {
    forall i, j :: 0 <= i < j < |ids| ==> ids[i] != ids[j]
  }

  ghost predicate ClaimsHeld(cfg: Config, w: World) {
    && (forall i :: 0 <= i < |w.shared.claims| ==>
          w.shared.claims[i].call in w.calls && w.calls[w.shared.claims[i].call].ticket == Some(i))
    && (forall c :: c in w.calls && w.calls[c].ticket.Some? ==>
          && w.calls[c].ticket.value < |w.shared.claims|
          && w.shared.claims[w.calls[c].ticket.value].call == c
          && KeyOf(w.calls[c].event) == Ok(w.shared.claims[w.calls[c].ticket.value].key))
  }

  ghost predicate Stored(w: World) {
    forall i :: 0 <= i < |w.shared.claims| ==>
      var cl := w.shared.claims[i];
      cl.key in w.shared.store && cl.end <= w.shared.store[cl.key]
  }

  /** A claim lasts a TTL.  Two claims of one key: only if claims expire, and the first had ended when the second began. */
  ghost predicate Exclusive(cfg: Config, claims: seq<Claim>) {
    && (forall i :: 0 <= i < |claims| ==> claims[i].end == claims[i].start + cfg.ttl)
    && (forall i, j :: 0 <= i < j < |claims| && claims[i].key == claims[j].key ==>
          cfg.expires && claims[i].end <= claims[j].start)
  }

  ghost predicate Logged(w: World) {
    && Distinct(w.shared.executed) && Distinct(w.shared.published)
    && (forall c :: c in w.shared.executed <==> c in w.calls && w.calls[c].answer.Some?)
    && (forall c :: c in w.shared.published <==> c in w.calls && w.calls[c].published)
  }

  ghost predicate Valid(cfg: Config, w: World) {
    && (forall c :: c in w.calls ==> Consistent(cfg, w.calls[c]))
    && ClaimsHeld(cfg, w) && Stored(w) && Exclusive(cfg, w.shared.claims) && Logged(w)
  }

  function Initial(inj: Injector): World {
    World(Shared(map[], inj, [], [], [], 0, 0), map[])
  }

  // ----- Every step keeps the invariant -----

  /** A step that appends to no history and keeps the ticket, answer and publication of its call. */
  lemma QuietStep(cfg: Config, w: World, c: int, call': Call, sh': Shared)
    requires Valid(cfg, w) && c in w.calls && Consistent(cfg, call')
    requires call'.event == w.calls[c].event && call'.ticket == w.calls[c].ticket
    requires call'.answer == w.calls[c].answer && call'.published == w.calls[c].published
    requires sh'.claims == w.shared.claims && sh'.executed == w.shared.executed && sh'.published == w.shared.published
    requires forall k :: k in w.shared.store ==> k in sh'.store && w.shared.store[k] <= sh'.store[k]
    ensures Valid(cfg, World(sh', w.calls[c := call']))
  {
    hide Consistent, KeyOf;
  }

  /** w' is w after call c was granted the claim cl. */
  ghost predicate Grants(w: World, w': World, c: int, cl: Claim) {
    && c in w.calls && w.calls[c].ticket.None? && cl.call == c && KeyOf(w.calls[c].event) == Ok(cl.key)
    && w'.shared == w.shared.(store := w.shared.store[cl.key := cl.end], claims := w.shared.claims + [cl])
    && w'.calls == w.calls[c := w.calls[c].(pc := AtAfterClaim, ticket := Some(|w.shared.claims|))]
  }

  lemma GrantHeld(cfg: Config, w: World, w': World, c: int, cl: Claim)
    requires ClaimsHeld(cfg, w) && Grants(w, w', c, cl)
    ensures ClaimsHeld(cfg, w')
  {
    hide KeyOf;
  }

  lemma GrantStored(cfg: Config, w: World, w': World, c: int, cl: Claim)
    requires Stored(w) && Exclusive(cfg, w.shared.claims) && Grants(w, w', c, cl)
    requires cfg.ttl >= 0.0 && cl.end == cl.start + cfg.ttl
    requires FreeKey(cfg, w.shared.store, cl.key, cl.start)
    ensures Stored(w') && Exclusive(cfg, w'.shared.claims)
  {
    hide KeyOf;
  }

  /** The calls of w' are those of w except for c, and all is well with c and the histories. */
  lemma Reassemble(cfg: Config, w: World, w': World, c: int)
    requires forall d :: d in w.calls ==> Consistent(cfg, w.calls[d])
    requires c in w'.calls && w'.calls == w.calls[c := w'.calls[c]] && Consistent(cfg, w'.calls[c])
    requires ClaimsHeld(cfg, w') && Stored(w') && Exclusive(cfg, w'.shared.claims) && Logged(w')
    ensures Valid(cfg, w')
  {
    hide Consistent, ClaimsHeld, Stored, Exclusive, Logged;
  }

  lemma GrantShape(cfg: Config, w: World, c: int, env: Env) returns (w': World, cl: Claim)
    requires c in w.calls && Consistent(cfg, w.calls[c]) && Granting(cfg, w.shared, w.calls[c], env)
    ensures w' == Apply(cfg, w, Advance(c, env)) && Grants(w, w', c, cl) && Consistent(cfg, w'.calls[c])
    ensures cl.start == env.now && cl.end == env.now + cfg.ttl && w'.calls == w.calls[c := w'.calls[c]]
  {
    StepConsistent(cfg, w.shared, c, w.calls[c], env);
    w', cl := Apply(cfg, w, Advance(c, env)), Claim(c, KeyOf(w.calls[c].event).value, env.now, env.now + cfg.ttl);
  }

  lemma GrantLogged(w: World, w': World, c: int, cl: Claim)
    requires Logged(w) && Grants(w, w', c, cl)
    ensures Logged(w')
  {
    hide KeyOf;
  }

  lemma GrantStep(cfg: Config, w: World, c: int, env: Env)
    requires Valid(cfg, w) && c in w.calls && Granting(cfg, w.shared, w.calls[c], env) && cfg.ttl >= 0.0
    ensures Valid(cfg, Apply(cfg, w, Advance(c, env)))
  {
    hide Apply, Consistent, KeyOf, ClaimsHeld, Stored, Exclusive, Logged;
    var w', cl := GrantShape(cfg, w, c, env);
    GrantHeld(cfg, w, w', c, cl);
    GrantStored(cfg, w, w', c, cl);
    GrantLogged(w, w', c, cl);
    Reassemble(cfg, w, w', c);
  }

  /** A step of call c that leaves its event and ticket and all claims as they were. */
  lemma ClaimsStay(cfg: Config, w: World, w': World, c: int)
    requires ClaimsHeld(cfg, w) && Stored(w) && c in w.calls
    requires w'.shared.claims == w.shared.claims && w'.shared.store == w.shared.store
    requires c in w'.calls && w'.calls == w.calls[c := w'.calls[c]]
    requires w'.calls[c].event == w.calls[c].event && w'.calls[c].ticket == w.calls[c].ticket
    ensures ClaimsHeld(cfg, w') && Stored(w')
  {
    hide KeyOf;
  }

  lemma ExecuteShape(cfg: Config, w: World, c: int, env: Env) returns (w': World)
    requires c in w.calls && Consistent(cfg, w.calls[c]) && w.calls[c].pc.AtExecute?
    ensures w' == Apply(cfg, w, Advance(c, env)) && w'.calls.Keys == w.calls.Keys && w'.calls == w.calls[c := w'.calls[c]]
    ensures w'.shared == w.shared.(executed := w.shared.executed + [c]) && Consistent(cfg, w'.calls[c])
    ensures w'.calls[c].event == w.calls[c].event && w'.calls[c].ticket == w.calls[c].ticket
    ensures w.calls[c].answer.None? && w'.calls[c].answer.Some? && w'.calls[c].published == w.calls[c].published
  {
    StepConsistent(cfg, w.shared, c, w.calls[c], env);
    w' := Apply(cfg, w, Advance(c, env));
  }

  lemma ExecuteLogged(w: World, w': World, c: int)
    requires Logged(w) && c in w.calls && c in w'.calls && w'.calls == w.calls[c := w'.calls[c]]
    requires w.calls[c].answer.None? && w'.calls[c].answer.Some? && w'.calls[c].published == w.calls[c].published
    requires w'.shared == w.shared.(executed := w.shared.executed + [c])
    ensures Logged(w')
  {
    assert c !in w.shared.executed;
  }

  lemma ExecuteStep(cfg: Config, w: World, c: int, env: Env)
    requires Valid(cfg, w) && c in w.calls && w.calls[c].pc.AtExecute?
    ensures Valid(cfg, Apply(cfg, w, Advance(c, env)))
  {
    hide Apply, Consistent, ClaimsHeld, Stored, Exclusive, Logged;
    var w' := ExecuteShape(cfg, w, c, env);
    ClaimsStay(cfg, w, w', c);
    ExecuteLogged(w, w', c);
    Reassemble(cfg, w, w', c);
  }

  lemma PublishShape(cfg: Config, w: World, c: int, env: Env) returns (w': World)
    requires c in w.calls && Consistent(cfg, w.calls[c]) && w.calls[c].pc.AtPublish? && env.publishOk
    ensures w' == Apply(cfg, w, Advance(c, env)) && w'.calls.Keys == w.calls.Keys && w'.calls == w.calls[c := w'.calls[c]]
    ensures w'.shared == w.shared.(published := w.shared.published + [c]) && Consistent(cfg, w'.calls[c])
    ensures w'.calls[c].event == w.calls[c].event && w'.calls[c].ticket == w.calls[c].ticket
    ensures w'.calls[c].answer == w.calls[c].answer && !w.calls[c].published && w'.calls[c].published
  {
    StepConsistent(cfg, w.shared, c, w.calls[c], env);
    w' := Apply(cfg, w, Advance(c, env));
  }

  lemma PublishLogged(w: World, w': World, c: int)
    requires Logged(w) && c in w.calls && c in w'.calls && w'.calls == w.calls[c := w'.calls[c]]
    requires w'.calls[c].answer == w.calls[c].answer && !w.calls[c].published && w'.calls[c].published
    requires w'.shared == w.shared.(published := w.shared.published + [c])
    ensures Logged(w')
  {
    assert c !in w.shared.published;
  }

  lemma PublishStep(cfg: Config, w: World, c: int, env: Env)
    requires Valid(cfg, w) && c in w.calls && w.calls[c].pc.AtPublish? && env.publishOk
    ensures Valid(cfg, Apply(cfg, w, Advance(c, env)))
  {
    hide Apply, Consistent, ClaimsHeld, Stored, Exclusive, Logged;
    var w' := PublishShape(cfg, w, c, env);
    ClaimsStay(cfg, w, w', c);
    PublishLogged(w, w', c);
    Reassemble(cfg, w, w', c);
  }

  predicate Granting(cfg: Config, sh: Shared, call: Call, env: Env) {
    var key := KeyOf(call.event);
    call.pc.AtClaim? && key.Ok? && FreeKey(cfg, sh.store, key.value, env.now) && !env.storeFails
  }

  lemma OtherStepIsQuiet(cfg: Config, sh: Shared, c: int, call: Call, env: Env)
    requires Stages(call) && cfg.ttl >= 0.0
    requires !Granting(cfg, sh, call, env) && !call.pc.AtExecute? && !(call.pc.AtPublish? && env.publishOk)
    ensures var sh', call' := StepCall(cfg, sh, c, call, env).0, StepCall(cfg, sh, c, call, env).1;
      && call'.event == call.event && call'.ticket == call.ticket
      && call'.answer == call.answer && call'.published == call.published
      && sh'.claims == sh.claims && sh'.executed == sh.executed && sh'.published == sh.published
      && forall k :: k in sh.store ==> k in sh'.store && sh.store[k] <= sh'.store[k]
  {
    hide KeyOf, ValidTask;
  }

  lemma StepValid(cfg: Config, w: World, step: Step)
    requires Valid(cfg, w) && Enabled(w, step) && cfg.ttl >= 0.0
    ensures Valid(cfg, Apply(cfg, w, step))
  {
    match step {
      case Begin(c, event) => BeginStep(cfg, w, c, event);
      case Advance(c, env) =>
        var call := w.calls[c];
        if Granting(cfg, w.shared, call, env) {
          GrantStep(cfg, w, c, env);
        } else if call.pc.AtExecute? {
          ExecuteStep(cfg, w, c, env);
        } else if call.pc.AtPublish? && env.publishOk {
          PublishStep(cfg, w, c, env);
        } else {
          StepConsistent(cfg, w.shared, c, call, env);
          OtherStepIsQuiet(cfg, w.shared, c, call, env);
          var r := StepCall(cfg, w.shared, c, call, env);
          QuietStep(cfg, w, c, r.1, r.0);
        }
    }
  }

  lemma BeginHeld(cfg: Config, w: World, w': World, c: int, event: Event)
    requires ClaimsHeld(cfg, w) && Stored(w) && Logged(w) && c !in w.calls
    requires w' == w.(calls := w.calls[c := Begun(cfg, event)])
    ensures ClaimsHeld(cfg, w') && Stored(w') && Logged(w')
  {
    hide KeyOf;
    assert c !in w.shared.executed && c !in w.shared.published;
  }

  lemma BeginStep(cfg: Config, w: World, c: int, event: Event)
    requires Valid(cfg, w) && c !in w.calls
    ensures Valid(cfg, Apply(cfg, w, Begin(c, event)))
  {
    var w' := Apply(cfg, w, Begin(c, event));
    assert Consistent(cfg, Begun(cfg, event));
    hide Consistent, ClaimsHeld, Stored, Exclusive, Logged;
    BeginHeld(cfg, w, w', c, event);
    Reassemble(cfg, w, w', c);
  }

  ghost predicate Possible(cfg: Config, w: World, steps: seq<Step>)
    decreases steps
  {
    steps == [] || (Enabled(w, steps[0]) && Possible(cfg, Apply(cfg, w, steps[0]), steps[1..]))
  }

  function Run(cfg: Config, w: World, steps: seq<Step>): World
    decreases steps
  {
    if steps == [] then w else Run(cfg, Apply(cfg, w, steps[0]), steps[1..])
  }

  lemma {:induction false} RunValid(cfg: Config, w: World, steps: seq<Step>)
    requires Valid(cfg, w) && Possible(cfg, w, steps) && cfg.ttl >= 0.0
    ensures Valid(cfg, Run(cfg, w, steps))
    decreases steps
  {
    if steps != [] {
      StepValid(cfg, w, steps[0]);
      hide Valid, Apply;
      RunValid(cfg, Apply(cfg, w, steps[0]), steps[1..]);
    }
  }

  // ----- What follows for every reachable state -----

  /** Two calls hold claims that began at least a TTL apart, which happens for one key only if claims expire. */
  ghost predicate Apart(cfg: Config, w: World, c: int, d: int)
    requires c in w.calls && d in w.calls
  {
    var a, b := w.calls[c].ticket, w.calls[d].ticket;
    && cfg.expires && a.Some? && b.Some? && a.value < |w.shared.claims| && b.value < |w.shared.claims|
    && ( w.shared.claims[a.value].start + cfg.ttl <= w.shared.claims[b.value].start
      || w.shared.claims[b.value].start + cfg.ttl <= w.shared.claims[a.value].start)
  }

  predicate SameKey(w: World, c: int, d: int)
    requires c in w.calls && d in w.calls
  {
    KeyOf(w.calls[c].event) == KeyOf(w.calls[d].event)
  }

  lemma ExecutedApart(cfg: Config, w: World, c: int, d: int)
    requires Valid(cfg, w) && cfg.hasStore && c != d && c in w.shared.executed && d in w.shared.executed
    requires c in w.calls && d in w.calls && SameKey(w, c, d)
    ensures Apart(cfg, w, c, d)
  {
    assert Consistent(cfg, w.calls[c]) && Consistent(cfg, w.calls[d]);
    hide KeyOf;
    assert w.calls[c].ticket.value != w.calls[d].ticket.value;
  }

  lemma InitialValid(cfg: Config, inj: Injector)
    ensures Valid(cfg, Initial(inj))
  {
  }

  /**
    In every interleaving of any number of calls, with any faults and any answers: a call executes
    at most once; with a store, two executions of one key fall under claims taken at least a TTL
    apart, so with claims that do not expire the executor runs at most once per key.
   */
  lemma ExecutesOncePerClaim(cfg: Config, inj: Injector, steps: seq<Step>)
    requires cfg.hasStore && cfg.ttl >= 0.0 && Possible(cfg, Initial(inj), steps)
    ensures var w := Run(cfg, Initial(inj), steps);
      && Distinct(w.shared.executed)
      && (forall c :: c in w.shared.executed ==> c in w.calls)
      && (forall c, d :: c in w.shared.executed && d in w.shared.executed && c != d && SameKey(w, c, d) ==>
            Apart(cfg, w, c, d))
  {
    InitialValid(cfg, inj);
    RunValid(cfg, Initial(inj), steps);
    var w := Run(cfg, Initial(inj), steps);
    assert forall c :: c in w.shared.executed ==> c in w.calls;
    forall c, d | c in w.shared.executed && d in w.shared.executed && c != d && SameKey(w, c, d)
      ensures Apart(cfg, w, c, d)
    {
      ExecutedApart(cfg, w, c, d);
    }
  }

  /** Calls that ended before executing did not execute; every publication follows a reportable execution of the same call. */
  lemma CallHistory(cfg: Config, w: World, c: int)
    requires Valid(cfg, w) && c in w.calls
    ensures var e := w.calls[c].event;
      && (c in w.shared.executed ==> TrimSpace(e.jobId) != [] && TrimSpace(e.tenant) != [] && e.priority >= 0)
      && (w.calls[c].pc == Done(BadTask) ==> TrimSpace(e.jobId) == [] || TrimSpace(e.tenant) == [] || e.priority < 0)
      && (w.calls[c].pc == Done(BadKey) ==> TrimSpace(e.jobId) == [] || e.attempt < 0)
    ensures w.calls[c].pc == Done(NoExecutor) <==> !cfg.hasExecutor
    ensures !cfg.hasStore ==> w.calls[c].ticket.None? && w.calls[c].pc != Done(Duplicate) && w.calls[c].pc != Done(StoreError)
    ensures w.calls[c].pc.Done? && EndsBeforeExecute(w.calls[c].pc.outcome) ==> c !in w.shared.executed
    ensures c in w.shared.published ==>
      c in w.shared.executed && w.calls[c].answer.Some? && Reportable(w.calls[c].answer.value)
    ensures w.calls[c].pc == Done(Fault(BeforeClaim)) ==> forall i :: 0 <= i < |w.shared.claims| ==> w.shared.claims[i].call != c
    ensures w.calls[c].pc == Done(Fault(AfterClaim)) ==>
      KeyOf(w.calls[c].event).Ok? && KeyOf(w.calls[c].event).value in w.shared.store
  {
    assert Consistent(cfg, w.calls[c]);
  }

  predicate EndsBeforeExecute(o: Outcome) {
    || o.NoExecutor? || o.BadKey? || o.StoreError? || o.Duplicate? || o.BadTask?
    || (o.Fault? && (o.point.BeforeClaim? || o.point.AfterClaim? || o.point.BeforeExecute?))
  }

  /**
    In every reachable state, a call stopped right after its claim leaves its key taken: nobody can
    claim it before that claim ends, and never if claims do not expire.
   */
  lemma AfterClaimFaultHolds(cfg: Config, w: World, c: int, now: real)
    requires Valid(cfg, w) && c in w.calls && w.calls[c].pc == Done(Fault(AfterClaim))
    ensures var key, ticket := KeyOf(w.calls[c].event), w.calls[c].ticket;
      && key.Ok? && ticket.Some? && ticket.value < |w.shared.claims| && w.shared.claims[ticket.value].call == c
      && (!cfg.expires || now < w.shared.claims[ticket.value].end ==> !FreeKey(cfg, w.shared.store, key.value, now))
  {
    assert Consistent(cfg, w.calls[c]);
  }

  /** A granted claim accounts for the key's entry in the store. */
  ghost predicate Grantor(sh: Shared, key: string, i: int) {
    && 0 <= i < |sh.claims| && sh.claims[i].key == key
    && key in sh.store && sh.claims[i].end == sh.store[key]
  }

  /** Unless a store call failed, every entry of the store was granted to some call. */
  ghost predicate OnlyGranted(w: World) {
    w.shared.storeErrors == 0 ==> forall key :: key in w.shared.store ==> exists i :: Grantor(w.shared, key, i)
  }

  lemma StepOnlyGranted(cfg: Config, w: World, step: Step)
    requires OnlyGranted(w)
    ensures OnlyGranted(Apply(cfg, w, step))
  {
    var w' := Apply(cfg, w, step);
    hide KeyOf, ValidTask;
    if w'.shared.storeErrors == 0 && step.Advance? {
      var n := |w.shared.claims|;
      assert (w'.shared.store == w.shared.store && w'.shared.claims == w.shared.claims)
        || ( |w'.shared.claims| == n + 1 && w'.shared.claims[..n] == w.shared.claims
             && w'.shared.store == w.shared.store[w'.shared.claims[n].key := w'.shared.claims[n].end]);
      hide StepCall;
      forall key | key in w'.shared.store ensures exists i :: Grantor(w'.shared, key, i) {
        if key in w.shared.store && w'.shared.store[key] == w.shared.store[key] {
          var i :| Grantor(w.shared, key, i);
          assert Grantor(w'.shared, key, i);
        } else {
          assert Grantor(w'.shared, key, n);
        }
      }
    }
  }

  lemma {:induction false} RunOnlyGranted(cfg: Config, w: World, steps: seq<Step>)
    requires OnlyGranted(w)
    ensures OnlyGranted(Run(cfg, w, steps))
    decreases steps
  {
    if steps != [] {
      StepOnlyGranted(cfg, w, steps[0]);
      hide OnlyGranted, Apply;
      RunOnlyGranted(cfg, Apply(cfg, w, steps[0]), steps[1..]);
    }
  }

  /** No call with this key got past its claim. */
  ghost predicate NoneClaimed(w: World, key: string) {
    forall c :: c in w.calls && KeyOf(w.calls[c].event) == Ok(key) ==>
      w.calls[c].ticket.None? || w.calls[c].pc == Done(Fault(BeforeClaim))
  }

  lemma NoneClaimedIsFree(cfg: Config, w: World, key: string)
    requires Valid(cfg, w) && OnlyGranted(w) && w.shared.storeErrors == 0 && NoneClaimed(w, key)
    ensures key !in w.shared.store
  {
    hide KeyOf;
    forall i | 0 <= i < |w.shared.claims| ensures w.shared.claims[i].key != key {
      assert Consistent(cfg, w.calls[w.shared.claims[i].call]);
    }
    assert forall i :: !Grantor(w.shared, key, i);
  }

  /** Some granted claim of the key has not ended yet. */
  ghost predicate Live(cfg: Config, w: World, key: string, now: real) {
    exists i :: LiveClaim(cfg, w, key, now, i)
  }

  ghost predicate LiveClaim(cfg: Config, w: World, key: string, now: real, i: int) {
    0 <= i < |w.shared.claims| && w.shared.claims[i].key == key && (cfg.expires ==> now < w.shared.claims[i].end)
  }

  lemma LiveIsTaken(cfg: Config, w: World, key: string, now: real)
    requires Stored(w) && OnlyGranted(w) && w.shared.storeErrors == 0
    ensures FreeKey(cfg, w.shared.store, key, now) <==> !Live(cfg, w, key, now)
  {
    if key in w.shared.store {
      var i :| Grantor(w.shared, key, i);
      if cfg.expires ==> now < w.shared.claims[i].end {
        assert LiveClaim(cfg, w, key, now, i);
      }
    }
  }

  /**
    Exactly when a claim is granted: over any run without store errors, a call that tries to claim its
    key gets it if no granted claim of that key is still live, and is skipped as a duplicate otherwise.
   */
  lemma {:induction false} ClaimExactly(cfg: Config, inj: Injector, steps: seq<Step>, c: int, env: Env)
    requires cfg.ttl >= 0.0 && Possible(cfg, Initial(inj), steps) && !env.storeFails
    requires var w := Run(cfg, Initial(inj), steps);
      w.shared.storeErrors == 0 && c in w.calls && w.calls[c].pc.AtClaim? && KeyOf(w.calls[c].event).Ok?
    ensures var w := Run(cfg, Initial(inj), steps);
      var pc, live := StepCall(cfg, w.shared, c, w.calls[c], env).1.pc, Live(cfg, w, KeyOf(w.calls[c].event).value, env.now);
      pc == if live then Done(Duplicate) else AtAfterClaim
  {
    var w := Run(cfg, Initial(inj), steps);
    InitialValid(cfg, inj);
    hide Run, Possible, KeyOf, Live;
    RunValid(cfg, Initial(inj), steps);
    RunOnlyGranted(cfg, Initial(inj), steps);
    LiveIsTaken(cfg, w, KeyOf(w.calls[c].event).value, env.now);
  }

  /**
    A before-claim fault leaves the key claimable: over any run in which no store call failed, a key
    that no call got past its claim, for instance because all its calls were stopped before it, is free.
   */
  lemma {:induction false} BeforeClaimFaultFrees(cfg: Config, inj: Injector, steps: seq<Step>, key: string, now: real)
    requires cfg.ttl >= 0.0 && Possible(cfg, Initial(inj), steps)
    requires Run(cfg, Initial(inj), steps).shared.storeErrors == 0 && NoneClaimed(Run(cfg, Initial(inj), steps), key)
    ensures FreeKey(cfg, Run(cfg, Initial(inj), steps).shared.store, key, now)
  {
    InitialValid(cfg, inj);
    hide Valid, Possible, Run, NoneClaimed;
    RunValid(cfg, Initial(inj), steps);
    RunOnlyGranted(cfg, Initial(inj), steps);
    NoneClaimedIsFree(cfg, Run(cfg, Initial(inj), steps), key);
  }

  // ----- Counters -----

  function EndedWith(calls: map<int, Call>, o: Outcome): set<int> {
    set c | c in calls && calls[c].pc == Done(o)
  }

  /** A step adds to a counter exactly when it ends its call in the way counted. */
  lemma StepCounters(cfg: Config, sh: Shared, c: int, call: Call, env: Env)
    requires Stages(call) && !call.pc.Done?
    ensures var sh', pc := StepCall(cfg, sh, c, call, env).0, StepCall(cfg, sh, c, call, env).1.pc;
      && sh'.duplicates == sh.duplicates + (if pc == Done(Duplicate) then 1 else 0)
      && sh'.storeErrors == sh.storeErrors + (if pc == Done(StoreError) then 1 else 0)
  {
    hide KeyOf, ValidTask;
  }

  ghost predicate Tallied(w: World) {
    && (forall c :: c in w.calls ==> Stages(w.calls[c]))
    && w.shared.duplicates == |EndedWith(w.calls, Duplicate)|
    && w.shared.storeErrors == |EndedWith(w.calls, StoreError)|
  }

  lemma EndedUpdate(calls: map<int, Call>, c: int, call: Call, o: Outcome)
    requires c in calls ==> !calls[c].pc.Done?
    ensures |EndedWith(calls[c := call], o)| == |EndedWith(calls, o)| + (if call.pc == Done(o) then 1 else 0)
  {
    assert EndedWith(calls[c := call], o) == EndedWith(calls, o) + (if call.pc == Done(o) then {c} else {});
  }

  lemma StepTallied(cfg: Config, w: World, step: Step)
    requires Valid(cfg, w) && Tallied(w) && Enabled(w, step) && cfg.ttl >= 0.0
    ensures Tallied(Apply(cfg, w, step))
  {
    StepValid(cfg, w, step);
    var w' := Apply(cfg, w, step);
    assert forall d :: d in w'.calls ==> Stages(w'.calls[d]) by {
      assert forall d :: d in w'.calls ==> Consistent(cfg, w'.calls[d]);
    }
    hide Valid, EndedWith, Stages;
    match step {
      case Begin(c, event) =>
        EndedUpdate(w.calls, c, Begun(cfg, event), Duplicate);
        EndedUpdate(w.calls, c, Begun(cfg, event), StoreError);
      case Advance(c, env) =>
        if w.calls[c].pc.Done? {
          assert w.calls[c := w.calls[c]] == w.calls;
        } else {
          StepCounters(cfg, w.shared, c, w.calls[c], env);
          hide StepCall;
          EndedUpdate(w.calls, c, w'.calls[c], Duplicate);
          EndedUpdate(w.calls, c, w'.calls[c], StoreError);
        }
    }
  }

  /** Over any run, the duplicate and store-error counters are the numbers of calls that ended that way. */
  lemma {:induction false} CountersExact(cfg: Config, w: World, steps: seq<Step>)
    requires Valid(cfg, w) && Tallied(w) && Possible(cfg, w, steps) && cfg.ttl >= 0.0
    ensures Tallied(Run(cfg, w, steps))
    decreases steps
  {
    if steps != [] {
      StepTallied(cfg, w, steps[0]);
      StepValid(cfg, w, steps[0]);
      hide Valid, Tallied, Apply;
      CountersExact(cfg, Apply(cfg, w, steps[0]), steps[1..]);
    }
  }

  // ----- The fault budget -----

  /** The injection point a call is at, if any; an invalid task is refused before its point. */
  function PointAt(call: Call): Option<Point> {
    match call.pc
    case AtStart => Some(BeforeClaim)
    case AtAfterClaim => Some(AfterClaim)
    case AtBeforeExecute => if ValidTask(call.event) then Some(BeforeExecute) else None
    case AtAfterExecute => Some(AfterExecute)
    case AtBeforePublish => Some(BeforeResultPublish)
    case AtAfterPublish => Some(AfterResultPublish)
    case _ => None
  }

  /** A step ends with a fault exactly when its call is at the configured point, faults are left, and a delay was cancelled. */
  lemma FaultExactly(cfg: Config, sh: Shared, c: int, call: Call, env: Env)
    requires Stages(call) && !call.pc.Done?
    ensures var sh', pc := StepCall(cfg, sh, c, call, env).0, StepCall(cfg, sh, c, call, env).1.pc;
      var hit := PointAt(call) == Some(sh.injector.point) && sh.injector.count > 0;
      && (pc.Done? && pc.outcome.Fault? <==> hit && (sh.injector.delays ==> env.cancelled))
      && (pc.Done? && pc.outcome.Fault? ==> pc.outcome.point == sh.injector.point)
      && sh'.injector == (if hit then sh.injector.(count := sh.injector.count - 1) else sh.injector)
  {
    hide KeyOf, ValidTask;
  }

  ghost predicate Faulted(calls: map<int, Call>, c: int) {
    c in calls && calls[c].pc.Done? && calls[c].pc.outcome.Fault?
  }

  ghost function FaultedCalls(calls: map<int, Call>): set<int> {
    set c | c in calls && Faulted(calls, c)
  }

  /** A call that a step ends with a fault has used up one of the budget; nothing adds to the budget. */
  lemma StepFault(cfg: Config, sh: Shared, c: int, call: Call, env: Env)
    requires Stages(call)
    ensures var sh', pc := StepCall(cfg, sh, c, call, env).0, StepCall(cfg, sh, c, call, env).1.pc;
      && sh'.injector.count <= sh.injector.count
      && (pc.Done? && pc.outcome.Fault? && !call.pc.Done? ==> sh'.injector.count + 1 == sh.injector.count)
      && (call.pc.Done? ==> pc == call.pc)
  {
    hide KeyOf, ValidTask;
  }

  lemma FaultStep(cfg: Config, w: World, step: Step)
    requires Enabled(w, step)
    ensures var w' := Apply(cfg, w, step);
      |FaultedCalls(w'.calls)| + w'.shared.injector.count <= |FaultedCalls(w.calls)| + w.shared.injector.count
  {
    var w' := Apply(cfg, w, step);
    var before, after := FaultedCalls(w.calls), FaultedCalls(w'.calls);
    match step {
      case Begin(c, event) =>
        assert after <= before;
        SubsetSize(after, before);
      case Advance(c, env) =>
        if Stages(w.calls[c]) {
          StepFault(cfg, w.shared, c, w.calls[c], env);
        }
        hide StepCall;
        assert forall d :: d != c ==> (Faulted(w'.calls, d) <==> Faulted(w.calls, d));
        assert after <= before + {c};
        if Faulted(w.calls, c) || !Faulted(w'.calls, c) {
          assert after <= before;
          SubsetSize(after, before);
        } else {
          SubsetSize(after, before + {c});
        }
    }
  }

  lemma SubsetSize(a: set<int>, b: set<int>)
    requires a <= b
    ensures |a| <= |b|
  {
    assert b == a + (b - a);
  }

  /** Over any run, the calls ended by faults and the faults left never exceed the configured count. */
  lemma {:induction false} FaultsBounded(cfg: Config, w: World, steps: seq<Step>)
    requires Possible(cfg, w, steps)
    ensures var w' := Run(cfg, w, steps);
      |FaultedCalls(w'.calls)| + w'.shared.injector.count <= |FaultedCalls(w.calls)| + w.shared.injector.count
    decreases steps
  {
    if steps != [] {
      FaultStep(cfg, w, steps[0]);
      hide Apply, FaultedCalls;
      FaultsBounded(cfg, Apply(cfg, w, steps[0]), steps[1..]);
    }
  }

  // ----- One call, run by itself -----

  /** The environment's answers may differ at every point of the call; a call passes each point once. */
  function Move(cfg: Config, c: int, env: Pc -> Env, at: (Shared, Call)): (Shared, Call) {
    if at.1.pc.Done? || !Stages(at.1) then at else StepCall(cfg, at.0, c, at.1, env(at.1.pc))
  }

  /** n steps of one call with nobody else moving; a call that is done stays as it is. */
  function Finish(cfg: Config, c: int, env: Pc -> Env, at: (Shared, Call), n: nat): (Shared, Call)
    decreases n
  {
    if n == 0 then at else Finish(cfg, c, env, Move(cfg, c, env, at), n - 1)
  }

  lemma ThreeMoves(cfg: Config, c: int, env: Pc -> Env, at: (Shared, Call))
    ensures Finish(cfg, c, env, at, 1) == Move(cfg, c, env, at)
    ensures Finish(cfg, c, env, at, 3) == Move(cfg, c, env, Move(cfg, c, env, Move(cfg, c, env, at)))
  {
    hide Move;
    var a := Move(cfg, c, env, at);
    var b := Move(cfg, c, env, a);
    assert Finish(cfg, c, env, a, 2) == Finish(cfg, c, env, b, 1);
  }

  class DispatchEventHandler {
    const cfg: Config
    var sh: Shared

    constructor (cfg: Config, inj: Injector)
      ensures this.cfg == cfg && sh == Initial(inj).shared
    {
      this.cfg := cfg;
      sh := Initial(inj).shared;
    }

    method Inject(point: Point, cancelled: bool) returns (failed: bool)
      modifies this
      ensures var inj := old(sh).injector;
        var hit := inj.point == point && inj.count > 0;
        && sh == old(sh).(injector := if hit then inj.(count := inj.count - 1) else inj)
        && (failed <==> hit && (inj.delays ==> cancelled))
      ensures sh == old(sh).(injector := Spent(old(sh).injector, point))
      ensures failed == Fails(old(sh).injector, point, cancelled)
    {
      var inj := sh.injector;
      if point != inj.point || inj.count == 0 {
        return false;
      }
      sh := sh.(injector := inj.(count := inj.count - 1));
      return !inj.delays || cancelled;
    }

    /** Claim the key: nothing to report when it was granted. */
    method TryClaim(c: int, event: Event, env: Env) returns (stop: Option<Outcome>)
      modifies this
      ensures var r := ClaimStep(cfg, old(sh), c, Call(event, AtClaim, None, None, false), env);
        sh == r.0 && r.1.pc == if stop.Some? then Done(stop.value) else AtAfterClaim
    {
      var key := GoExecutionKey(event.jobId, event.attempt);
      if key.Err? {
        return Some(BadKey);
      }
      var free := key.value !in sh.store || (cfg.expires && sh.store[key.value] <= env.now);
      if env.storeFails {
        if free && env.storeApplied {
          sh := sh.(store := sh.store[key.value := env.now + cfg.ttl]);
        }
        sh := sh.(storeErrors := sh.storeErrors + 1);
        return Some(StoreError);
      }
      if !free {
        sh := sh.(duplicates := sh.duplicates + 1);
        return Some(Duplicate);
      }
      sh := sh.(claims := sh.claims + [Claim(c, key.value, env.now, env.now + cfg.ttl)],
                store := sh.store[key.value := env.now + cfg.ttl]);
      return None;
    }

    /** The claim half of handle, up to the point where the job may run. */
    method ClaimPhase(c: int, event: Event, env: Pc -> Env) returns (stop: Option<Outcome>)
      modifies this
      ensures var r := Finish(cfg, c, env, (old(sh), Begun(cfg, event)), if cfg.hasStore then 3 else 1);
        && sh == r.0 && r.1.event == event && r.1.answer.None? && !r.1.published
        && r.1.pc == if stop.Some? then Done(stop.value) else AtBeforeExecute
    {
      ThreeMoves(cfg, c, env, (sh, Begun(cfg, event)));
      if !cfg.hasExecutor {
        return Some(NoExecutor);
      }
      var failed := Inject(BeforeClaim, env(AtStart).cancelled);
      if failed {
        return Some(Fault(BeforeClaim));
      }
      if cfg.hasStore {
        stop := TryClaim(c, event, env(AtClaim));
        if stop.Some? {
          return;
        }
        failed := Inject(AfterClaim, env(AtAfterClaim).cancelled);
        if failed {
          return Some(Fault(AfterClaim));
        }
      }
      return None;
    }

    /** The execution half, up to the point where the result may be published. */
    method ExecutePhase(c: int, ghost call: Call, event: Event, env: Pc -> Env) returns (stop: Option<Outcome>)
      requires call.pc.AtBeforeExecute? && call.event == event && call.answer.None? && !call.published
      modifies this
      ensures var r := Finish(cfg, c, env, (old(sh), call), 3);
        && sh == r.0 && r.1.event == event && !r.1.published && r.1.answer == (if r.1.answer.Some? then Some(env(AtExecute).answer) else None)
        && r.1.pc == if stop.Some? then Done(stop.value) else AtBeforePublish
    {
      ThreeMoves(cfg, c, env, (sh, call));
      if !ValidTask(event) {
        return Some(BadTask);
      }
      var failed := Inject(BeforeExecute, env(AtBeforeExecute).cancelled);
      if failed {
        return Some(Fault(BeforeExecute));
      }
      var answer := env(AtExecute).answer;
      sh := sh.(executed := sh.executed + [c]);
      if answer.ExecutorError? {
        return Some(ExecuteError);
      }
      failed := Inject(AfterExecute, env(AtAfterExecute).cancelled);
      if failed {
        return Some(Fault(AfterExecute));
      }
      if answer.status.Unknown? {
        return Some(BadStatus);
      }
      if !cfg.hasProducer || answer.status.DuplicateSkipped? {
        return Some(Completed);
      }
      return None;
    }

    method PublishPhase(c: int, ghost call: Call, env: Pc -> Env) returns (o: Outcome)
      requires call.pc.AtBeforePublish?
      modifies this
      ensures var r := Finish(cfg, c, env, (old(sh), call), 3);
        sh == r.0 && r.1.pc == Done(o)
    {
      ThreeMoves(cfg, c, env, (sh, call));
      var failed := Inject(BeforeResultPublish, env(AtBeforePublish).cancelled);
      if failed {
        return Fault(BeforeResultPublish);
      }
      if !env(AtPublish).publishOk {
        return PublishError;
      }
      sh := sh.(published := sh.published + [c]);
      failed := Inject(AfterResultPublish, env(AtAfterPublish).cancelled);
      if failed {
        return Fault(AfterResultPublish);
      }
      return Completed;
    }

    /** handle: the steps of one call in a row, to its end. */
    method Handle(c: int, event: Event, env: Pc -> Env) returns (o: Outcome)
      modifies this
      ensures var r := Finish(cfg, c, env, (old(sh), Begun(cfg, event)), 9);
        sh == r.0 && r.1.pc == Done(o)
    {
      ghost var m := if cfg.hasStore then 3 else 1;
      ghost var at := (sh, Begun(cfg, event));
      ghost var at1 := Finish(cfg, c, env, at, m);
      ghost var at2 := Finish(cfg, c, env, at1, 3);
      FinishSplit(cfg, c, env, at, m, 9 - m);
      FinishSplit(cfg, c, env, at1, 3, 6 - m);
      FinishSplit(cfg, c, env, at2, 3, 3 - m);
      var stop := ClaimPhase(c, event, env);
      if stop.Some? {
        FinishDone(cfg, c, env, at1, 9 - m);
        return stop.value;
      }
      stop := ExecutePhase(c, at1.1, event, env);
      if stop.Some? {
        FinishDone(cfg, c, env, at2, 6 - m);
        return stop.value;
      }
      o := PublishPhase(c, at2.1, env);
      FinishDone(cfg, c, env, Finish(cfg, c, env, at2, 3), 3 - m);
    }
  }

  lemma {:induction false} FinishSplit(cfg: Config, c: int, env: Pc -> Env, at: (Shared, Call), m: nat, n: nat)
    ensures Finish(cfg, c, env, at, m + n) == Finish(cfg, c, env, Finish(cfg, c, env, at, m), n)
    decreases m
  {
    if m > 0 {
      hide Move;
      FinishSplit(cfg, c, env, Move(cfg, c, env, at), m - 1, n);
    }
  }

  lemma {:induction false} FinishDone(cfg: Config, c: int, env: Pc -> Env, at: (Shared, Call), n: nat)
    requires at.1.pc.Done?
    ensures Finish(cfg, c, env, at, n) == at
    decreases n
  {
    if n > 0 {
      FinishDone(cfg, c, env, at, n - 1);
    }
  }

  /** Its steps are steps of the concurrent machine, so all of the above holds of it too. */
  lemma MoveIsAdvance(cfg: Config, w: World, c: int, env: Pc -> Env)
    requires c in w.calls && !w.calls[c].pc.Done? && Stages(w.calls[c])
    ensures var at := Move(cfg, c, env, (w.shared, w.calls[c]));
      Apply(cfg, w, Advance(c, env(w.calls[c].pc))) == World(at.0, w.calls[c := at.1])
  {
  }
}

/** The claim keys of the pipeline stages, in their Python and Go forms. */
module IdempotencyKeys {
  import opened Wrappers
  import opened Text

  datatype Stage = WorkerResult | Dispatch | Execution

  datatype KeyError = BlankId | NegativeAttempt

  function Prefix(stage: Stage): string {
    match stage
    case WorkerResult => "worker-result:"
    case Dispatch => "dispatch:"
    case Execution => "execution:"
  }

  function Compose(prefix: string, id: string, attempt: nat): string {
    prefix + id + ":" + Decimal(attempt)
  }

  lemma KeyPrefix(prefix: string, id: string, attempt: nat)
    ensures |Compose(prefix, id, attempt)| > |prefix| && Compose(prefix, id, attempt)[..|prefix|] == prefix
  {
    assert Compose(prefix, id, attempt) == prefix + (id + ":" + Decimal(attempt));
  }

  /** worker_result_key, dispatch_key and execution_key. */
  function StageKey(stage: Stage, jobId: string, attempt: int): (r: Result<string, KeyError>)
    ensures r.Ok? <==> !Blank(jobId) && attempt >= 0
    ensures r.Ok? ==> |r.value| > |Prefix(stage)| && r.value[..|Prefix(stage)|] == Prefix(stage)
  {
    KeyPrefix(Prefix(stage), Strip(jobId), if attempt >= 0 then attempt else 0);
    if Blank(jobId) then Err(BlankId)
    else if attempt < 0 then Err(NegativeAttempt)
    else Ok(Compose(Prefix(stage), Strip(jobId), attempt))
  }

  function EventKey(eventId: string): Result<string, KeyError> {
    if Blank(eventId) then Err(BlankId) else Ok("event:" + Strip(eventId))
  }

  /** ExecutionIdempotencyKey of the Go worker. */
  function GoExecutionKey(jobId: string, attempt: int): Result<string, KeyError> {
    if TrimSpace(jobId) == [] then Err(BlankId)
    else if attempt < 0 then Err(NegativeAttempt)
    else Ok(Compose(Prefix(Execution), TrimSpace(jobId), attempt))
  }

  /** The Redis stores prepend their namespace. */
  function Namespaced(namespace: string, key: string): string {
    namespace + ":" + key
  }

  lemma ComposeInjective(prefix: string, id1: string, a1: nat, id2: string, a2: nat)
    requires Compose(prefix, id1, a1) == Compose(prefix, id2, a2)
    ensures id1 == id2 && a1 == a2
  {
    LastColon(prefix + id1, Decimal(a1), prefix + id2, Decimal(a2));
    assert id1 == (prefix + id1)[|prefix|..] == (prefix + id2)[|prefix|..] == id2;
    DecimalInjective(a1, a2);
  }

  /** The documented examples. */
  lemma KeyExamples()
    ensures StageKey(WorkerResult, "job-abc", 0) == Ok("worker-result:job-abc:0")
    ensures StageKey(Dispatch, "job-abc", 0) == Ok("dispatch:job-abc:0")
    ensures StageKey(Execution, "job-abc", 0) == Ok("execution:job-abc:0")
    ensures GoExecutionKey("job-abc", 0) == Ok("execution:job-abc:0")
  {
    TrimUnique("job-abc", PySpace, 0, 7);
    TrimUnique("job-abc", GoSpace, 0, 7);
    assert Strip("job-abc") == "job-abc"[0..7] == "job-abc";
    assert Decimal(0) == "0";
    assert Compose(Prefix(WorkerResult), "job-abc", 0) == "worker-result:job-abc:0";
    assert Compose(Prefix(Dispatch), "job-abc", 0) == "dispatch:job-abc:0";
    assert Compose(Prefix(Execution), "job-abc", 0) == "execution:job-abc:0";
  }

  lemma EventExample()
    ensures EventKey("evt") == Ok("event:evt") && Namespaced("ns", "event:evt") == "ns:event:evt"
  {
    TrimUnique("evt", PySpace, 0, 3);
    assert "evt"[0..3] == "evt";
    assert "event:" + "evt" == "event:evt";
    assert "ns" + ":" + "event:evt" == "ns:event:evt";
  }

  /** Within a stage, two keys are equal exactly when the stripped id and the attempt are. */
  lemma StageKeyInjective(stage: Stage, id1: string, a1: int, id2: string, a2: int)
    requires StageKey(stage, id1, a1).Ok? && StageKey(stage, id2, a2).Ok?
    ensures StageKey(stage, id1, a1) == StageKey(stage, id2, a2) <==> Strip(id1) == Strip(id2) && a1 == a2
  {
    if StageKey(stage, id1, a1) == StageKey(stage, id2, a2) {
      ComposeInjective(Prefix(stage), Strip(id1), a1, Strip(id2), a2);
    }
  }

  lemma GoKeyInjective(id1: string, a1: int, id2: string, a2: int)
    requires GoExecutionKey(id1, a1).Ok? && GoExecutionKey(id2, a2).Ok?
    ensures GoExecutionKey(id1, a1) == GoExecutionKey(id2, a2) <==> TrimSpace(id1) == TrimSpace(id2) && a1 == a2
  {
    if GoExecutionKey(id1, a1) == GoExecutionKey(id2, a2) {
      ComposeInjective(Prefix(Execution), TrimSpace(id1), a1, TrimSpace(id2), a2);
    }
  }

  lemma EventKeyInjective(e1: string, e2: string)
    requires EventKey(e1).Ok? && EventKey(e2).Ok?
    ensures EventKey(e1) == EventKey(e2) <==> Strip(e1) == Strip(e2)
  {
    var p := "event:";
    assert (p + Strip(e1))[|p|..] == Strip(e1) && (p + Strip(e2))[|p|..] == Strip(e2);
  }

  lemma ComposeHead(stage: Stage, id: string, attempt: nat)
    ensures |Compose(Prefix(stage), id, attempt)| > 1
    ensures Compose(Prefix(stage), id, attempt)[0] == if stage.WorkerResult? then 'w' else if stage.Dispatch? then 'd' else 'e'
    ensures Compose(Prefix(stage), id, attempt)[1] == if stage.WorkerResult? then 'o' else if stage.Dispatch? then 'i' else 'x'
  {
    var key, rest := Compose(Prefix(stage), id, attempt), id + ":" + Decimal(attempt);
    assert key == Prefix(stage) + rest;
    assert key[0] == Prefix(stage)[0] && key[1] == Prefix(stage)[1];
  }

  /** Keys of different stages never collide. */
  lemma StagesDisjoint(s1: Stage, id1: string, a1: int, s2: Stage, id2: string, a2: int)
    requires s1 != s2 && StageKey(s1, id1, a1).Ok? && StageKey(s2, id2, a2).Ok?
    ensures StageKey(s1, id1, a1) != StageKey(s2, id2, a2)
  {
    ComposeHead(s1, Strip(id1), a1);
    ComposeHead(s2, Strip(id2), a2);
  }

  /** Nor does a stage key collide with an opaque event key. */
  lemma EventKeysDisjoint(stage: Stage, id: string, attempt: int, eventId: string)
    requires StageKey(stage, id, attempt).Ok? && EventKey(eventId).Ok?
    ensures StageKey(stage, id, attempt) != EventKey(eventId)
  {
    ComposeHead(stage, Strip(id), attempt);
    assert EventKey(eventId).value[1] == 'v';
  }

  /** A fixed namespace keeps distinct keys distinct. */
  lemma NamespaceInjective(namespace: string, k1: string, k2: string)
    ensures Namespaced(namespace, k1) == Namespaced(namespace, k2) <==> k1 == k2
  {
    var p := namespace + ":";
    assert (p + k1)[|p|..] == k1 && (p + k2)[|p|..] == k2;
  }

  /**
    The Go worker and the Python control plane build the same execution key exactly when they
    trim the id alike: Go must leave no U+001C..U+001F separator at either end.
   */
  lemma ExecutionKeysAgree(jobId: string, attempt: nat)
    ensures GoExecutionKey(jobId, attempt) == StageKey(Execution, jobId, attempt) <==>
      var g := TrimSpace(jobId); g == [] || (!Separator(g[0]) && !Separator(g[|g| - 1]))
  {
    TrimsAgree(jobId);
    var go, py := GoExecutionKey(jobId, attempt), StageKey(Execution, jobId, attempt);
    if go.Ok? && py.Ok? && go == py {
      ComposeInjective(Prefix(Execution), TrimSpace(jobId), attempt, Strip(jobId), attempt);
    }
  }

  /** They do differ on an id that starts with a unit separator. */
  lemma ExecutionKeysCanDiffer()
    ensures GoExecutionKey("\U{1F}a", 0) != StageKey(Execution, "\U{1F}a", 0)
  {
    TrimUnique("\U{1F}a", GoSpace, 0, 2);
    ExecutionKeysAgree("\U{1F}a", 0);
  }
}

/** The host's request loop: re-execution, reply, settlement and the table of ongoing requests. */
module ServiceHost {
  import opened Basics
  import opened FilterPipeline
  import opened FilterLaws
  import opened Retry
  import opened ReExecution

  datatype ReplyBody = Value(value: Option<int>) | Error(error: Exn) | Canceled | Empty

  /** What `ExecuteRequestAsync` does after one run of the pipeline. */
  datatype Verdict = Reply(body: ReplyBody) | RunAgain | NackAndReply | Fail

  /** How one execution of the pipeline ended, and whether the request's token was cancelled by
      the time the host looked. */
  datatype Attempt = Attempt(exit: Exit, aborted: bool)

  /** `genericReturn` is the case in which asking a constructed type for generic parameter
      constraints throws. */
  function Judge(a: Attempt, genericReturn: bool): Verdict {
    var x := a.exit.ctx.executed;
    if a.exit.threw then Fail
    else if a.aborted then Reply(Canceled)
    else if x.exception.Some? && !x.exceptionHandled then
      match x.strategy
      case ReturnDefault => if genericReturn then Fail else Reply(Value(None))
      case ReExecute => RunAgain
      case RejectRequest => NackAndReply
      case PropagateToClient => Reply(Error(x.exception.value))
    else Reply(Value(x.result))
  }

  // ---- The request loop ----

  datatype Delivery = Delivery(tag: nat, id: string, replyTo: string, hasAction: bool, genericReturn: bool)

  datatype Effect =
    | Publish(queue: string, correlationId: string, body: ReplyBody)
    | Ack(tag: nat)
    | Nack(tag: nat, requeue: bool)

  const UNKNOWN_ACTION := OtherException(404)

  /** What the channel sees of a delivery whose last execution got verdict `v`. */
  function Settlement(d: Delivery, v: Verdict): seq<Effect>
    requires !v.RunAgain?
  {
    match v
    case Reply(b) => [Publish(d.replyTo, d.id, b), Ack(d.tag)]
    case NackAndReply => [Nack(d.tag, true), Publish(d.replyTo, d.id, Empty), Ack(d.tag)]
    case Fail => [Nack(d.tag, false)]
  }

  function VerdictOf(d: Delivery, attempts: nat -> Attempt, n: nat): Verdict {
    if d.hasAction then Judge(attempts(n), d.genericReturn) else Reply(Error(UNKNOWN_ACTION))
  }

  // ---- What a delivery may be answered with, from the fields of its last execution ----

  predicate Unhandled(x: ExecutedContext) {
    x.exception.Some? && !x.exceptionHandled
  }

  /** The execution asks for another one. */
  predicate AsksAgain(d: Delivery, a: Attempt) {
    var x := a.exit.ctx.executed;
    d.hasAction && !a.exit.threw && !a.aborted && Unhandled(x) && x.strategy == ReExecute
  }

  /** One reply, to the queue and with the correlation id of the delivery, and then the ack. */
  predicate IsReply(d: Delivery, body: ReplyBody, sent: seq<Effect>) {
    |sent| == 2 && sent[1] == Ack(d.tag)
    && sent[0].Publish? && sent[0].queue == d.replyTo && sent[0].correlationId == d.id && sent[0].body == body
  }

  /** A nack that keeps the broker from dispatching the delivery again, and no reply. */
  predicate IsDropped(d: Delivery, sent: seq<Effect>) {
    |sent| == 1 && sent[0].Nack? && sent[0].tag == d.tag && !sent[0].requeue
  }

  predicate IsAnswer(d: Delivery, a: Attempt, sent: seq<Effect>) {
    var x := a.exit.ctx.executed;
    if !d.hasAction then IsReply(d, Error(UNKNOWN_ACTION), sent)
    else if a.exit.threw then IsDropped(d, sent)
    else if a.aborted then IsReply(d, Canceled, sent)
    else if !Unhandled(x) then IsReply(d, Value(x.result), sent)
    else
      match x.strategy
      case PropagateToClient => IsReply(d, Error(x.exception.value), sent)
      case ReturnDefault => if d.genericReturn then IsDropped(d, sent) else IsReply(d, Value(None), sent)
      case RejectRequest => |sent| == 3 && sent[0] == Nack(d.tag, true) && IsReply(d, Empty, sent[1..])
      case ReExecute => false
  }

  /** The verdict and the settlement agree with the fields of the execution. */
  lemma VerdictIsAnswer(d: Delivery, attempts: nat -> Attempt, n: nat)
    ensures var v := VerdictOf(d, attempts, n);
            if v.RunAgain? then AsksAgain(d, attempts(n))
            else !AsksAgain(d, attempts(n)) && IsAnswer(d, attempts(n), Settlement(d, v))
  {
  }

  lemma VerdictsAsk(d: Delivery, attempts: nat -> Attempt, executions: nat)
    ensures forall n :: 0 <= n < executions && VerdictOf(d, attempts, n).RunAgain? ==> AsksAgain(d, attempts(n))
  {
    forall n | 0 <= n < executions && VerdictOf(d, attempts, n).RunAgain? ensures AsksAgain(d, attempts(n)) {
      VerdictIsAnswer(d, attempts, n);
    }
  }

  class RabbitServiceHost {
    /** Correlation id to cancellation source. */
    var ongoing: map<string, nat>
    var cancelled: set<nat>
    var effects: seq<Effect>
    var nextSource: nat

    constructor ()
      ensures ongoing == map[] && cancelled == {} && effects == []
    {
      ongoing, cancelled, effects, nextSource := map[], {}, [], 0;
    }

    method OnCancelRequest(id: string)
      modifies this`cancelled
      ensures cancelled == old(cancelled) + (if id in ongoing then {ongoing[id]} else {})
    {
      if id in ongoing {
        cancelled := cancelled + {ongoing[id]};
      }
    }

    /** One delivery, watched for at most `limit` executions, a bound that the loop itself does not
        have. `attempts(n)` is what execution `n` yields. Once an execution does not ask for another
        one the delivery is settled; until then nothing has been sent and it stays in the table. */
    method ExecuteRequest(d: Delivery, attempts: nat -> Attempt, limit: nat) returns (executions: nat, finished: bool)
      modifies this
      ensures executions <= limit
      ensures finished <==> exists n: nat :: n < limit && !VerdictOf(d, attempts, n).RunAgain?
      ensures forall n :: 0 <= n < executions - 1 ==> VerdictOf(d, attempts, n).RunAgain?
      ensures finished ==>
                && executions >= 1 && !VerdictOf(d, attempts, executions - 1).RunAgain?
                && effects == old(effects) + Settlement(d, VerdictOf(d, attempts, executions - 1))
                && ongoing == old(ongoing) - {d.id}
      ensures forall n :: 0 <= n < executions - 1 ==> AsksAgain(d, attempts(n))
      ensures finished ==> exists sent :: effects == old(effects) + sent && IsAnswer(d, attempts(executions - 1), sent)
      ensures !finished ==>
                executions == limit && effects == old(effects)
                && ongoing.Keys == old(ongoing).Keys + {d.id} && ongoing - {d.id} == old(ongoing) - {d.id}
      ensures cancelled == old(cancelled)
    {
      ongoing := ongoing[d.id := nextSource];
      nextSource := nextSource + 1;
      executions, finished := 0, false;
      var failed, body := false, Empty;
      while executions < limit
        invariant 0 <= executions <= limit && !finished
        invariant forall n :: 0 <= n < executions ==> VerdictOf(d, attempts, n).RunAgain?
        invariant effects == old(effects) && cancelled == old(cancelled)
        invariant ongoing.Keys == old(ongoing).Keys + {d.id} && ongoing - {d.id} == old(ongoing) - {d.id}
        invariant body == Empty && !failed
      {
        var n := executions;
        executions := executions + 1;
        if !d.hasAction {
          body, finished := Error(UNKNOWN_ACTION), true;
          break;
        }
        var a := attempts(n);
        var x := a.exit.ctx.executed;
        if a.exit.threw {
          failed := true;
        } else if a.aborted {
          body := Canceled;
        } else if x.exception.Some? && !x.exceptionHandled {
          match x.strategy {
            case ReturnDefault =>
              if d.genericReturn { failed := true; } else { body := Value(None); }
            case ReExecute =>
              continue;
            case RejectRequest =>
              effects := effects + [Nack(d.tag, true)];
            case PropagateToClient =>
              body := Error(x.exception.value);
          }
        } else {
          body := Value(x.result);
        }
        finished := true;
        break;
      }
      VerdictsAsk(d, attempts, executions);
      if !finished {
        return;
      }
      VerdictIsAnswer(d, attempts, executions - 1);
      assert !VerdictOf(d, attempts, executions - 1).RunAgain?;
      if failed {
        effects := effects + [Nack(d.tag, false)];
      } else {
        effects := effects + [Publish(d.replyTo, d.id, body)];
        effects := effects + [Ack(d.tag)];
      }
      ongoing := ongoing - {d.id};
    }

    /** A delivery for which only retry filters ask for re-execution, whatever else the filters and
        the action of each execution do: it is settled after a bounded number of executions. */
    method ExecuteWithFilters(
      d: Delivery, s: Settings, filters: nat -> Filters, actions: nat -> Action, aborted: nat -> bool)
        returns (executions: nat)
      requires forall n: nat :: OnlyRetryAsks(s, n, filters(n))
      modifies this
      ensures 1 <= executions <= if s.maximumRetries < 0 then 1 else s.maximumRetries + 2
      ensures var attempts := AttemptsOf(filters, actions, aborted);
              && (forall n :: 0 <= n < executions - 1 ==> VerdictOf(d, attempts, n).RunAgain?)
              && !VerdictOf(d, attempts, executions - 1).RunAgain?
              && effects == old(effects) + Settlement(d, VerdictOf(d, attempts, executions - 1))
      ensures var n := executions - 1;
              exists sent :: effects == old(effects) + sent
                             && IsAnswer(d, Attempt(RunRequest(filters(n), actions(n)), aborted(n)), sent)
      ensures ongoing == old(ongoing) - {d.id} && cancelled == old(cancelled)
    {
      var attempts, limit := AttemptsOf(filters, actions, aborted), MaximumExecutions(s);
      LastIsFinal(d, s, filters, actions, aborted, limit - 1);
      var finished;
      executions, finished := ExecuteRequest(d, attempts, limit);
    }

    /** The sharper statement for a delivery whose other filters hand contexts and exceptions
        through: the verdict of every execution is known. `waits` counts the delays started. */
    method ExecuteWithRetry(d: Delivery, others: Others, s: Settings, runs: nat -> Execution) returns (executions: nat, waits: nat)
      requires AllTransparent(others)
      modifies this
      ensures 1 <= executions <= if s.maximumRetries < 0 then 1 else s.maximumRetries + 2
      ensures ongoing == old(ongoing) - {d.id}
      ensures forall n :: 0 <= n < executions - 1 ==> RetryVerdictOf(d, s, runs, n).RunAgain?
      ensures var v := RetryVerdictOf(d, s, runs, executions - 1);
              !v.RunAgain? && !v.NackAndReply? && effects == old(effects) + Settlement(d, v)
      ensures executions - 1 <= waits <= executions
      ensures DelaysFit(s, runs, waits) ==> 0 <= TotalDelay(s, runs, waits) <= AllowedWaits(s) * s.maximumBackoffTime
    {
      var attempts, limit := RetryAttempts(others, s, runs), MaximumExecutions(s);
      RetryVerdictsUpTo(d, others, s, runs, limit);
      assert !RetryVerdictOf(d, s, runs, limit - 1).RunAgain?;
      var finished;
      executions, finished := ExecuteRequest(d, attempts, limit);
      waits := if d.hasAction && Retries(s, executions - 1, runs(executions - 1).outcome) then executions else executions - 1;
      if DelaysFit(s, runs, waits) {
        RetryWaitsAtMost(s, runs, waits);
      }
    }
  }

  /** A conflict that may be retried, with nothing in the way. */
  predicate MustRetry(s: Settings, n: nat, run: Execution) {
    run.outcome == Threw(ConcurrencyException) && n <= s.maximumRetries && !run.delayThrows && !run.aborted
  }

  /** The answer to a delivery whose execution `n` was the last. */
  predicate IsRetryAnswer(d: Delivery, s: Settings, n: nat, run: Execution, sent: seq<Effect>) {
    match run.outcome
    case Threw(ConcurrencyException) =>
      if n <= s.maximumRetries && run.delayThrows then IsDropped(d, sent)
      else if run.aborted then IsReply(d, Canceled, sent)
      else n > s.maximumRetries && IsReply(d, Error(ConcurrencyException), sent)
    case Threw(e) => IsReply(d, if run.aborted then Canceled else Error(e), sent)
    case Returned(v) => IsReply(d, if run.aborted then Canceled else Value(v), sent)
  }

  /** What the verdicts of `ExecuteWithRetry` come to: which executions are followed by another one, and
      how the last one is answered. */
  lemma RetryVerdictIsAnswer(d: Delivery, s: Settings, runs: nat -> Execution, n: nat)
    requires d.hasAction
    ensures var v := RetryVerdictOf(d, s, runs, n);
            if v.RunAgain? then MustRetry(s, n, runs(n))
            else !v.NackAndReply? && IsRetryAnswer(d, s, n, runs(n), Settlement(d, v))
  {
  }

  /** Each execution builds and runs the pipeline of its filters. */
  function AttemptsOf(filters: nat -> Filters, actions: nat -> Action, aborted: nat -> bool): nat -> Attempt {
    (n: nat) => Attempt(RunRequest(filters(n), actions(n)), aborted(n))
  }

  /** After MaximumRetries nobody asks for another execution. */
  lemma LastIsFinal(
    d: Delivery, s: Settings, filters: nat -> Filters, actions: nat -> Action, aborted: nat -> bool, n: nat)
    requires OnlyRetryAsks(s, n, filters(n)) && n > s.maximumRetries
    ensures !VerdictOf(d, AttemptsOf(filters, actions, aborted), n).RunAgain?
  {
    NobodyAsks(s, n, filters(n), actions(n));
  }

  /** Each execution runs the pipeline of an action with the retry filter. */
  function RetryAttempts(others: Others, s: Settings, runs: nat -> Execution): nat -> Attempt {
    (n: nat) => Attempt(RetryExit(others, s, n, runs(n).outcome, runs(n).delayThrows), runs(n).aborted)
  }

  /** `RetryVerdict` of execution `n`, for a delivery that may name an unknown action. */
  function RetryVerdictOf(d: Delivery, s: Settings, runs: nat -> Execution, n: nat): Verdict {
    if d.hasAction then RetryVerdict(s, n, runs(n).outcome, runs(n).delayThrows, runs(n).aborted)
    else Reply(Error(UNKNOWN_ACTION))
  }

  lemma RetryVerdictOfAttempts(d: Delivery, others: Others, s: Settings, runs: nat -> Execution, n: nat)
    requires AllTransparent(others)
    ensures VerdictOf(d, RetryAttempts(others, s, runs), n) == RetryVerdictOf(d, s, runs, n)
  {
    RetryVerdictIsThePipelines(others, s, n, runs(n).outcome, runs(n).delayThrows, runs(n).aborted, d.genericReturn);
  }

  lemma RetryVerdictsUpTo(d: Delivery, others: Others, s: Settings, runs: nat -> Execution, limit: nat)
    requires AllTransparent(others)
    ensures forall n :: 0 <= n < limit ==> VerdictOf(d, RetryAttempts(others, s, runs), n) == RetryVerdictOf(d, s, runs, n)
  {
    forall n | 0 <= n < limit ensures VerdictOf(d, RetryAttempts(others, s, runs), n) == RetryVerdictOf(d, s, runs, n) {
      RetryVerdictOfAttempts(d, others, s, runs, n);
    }
  }

  predicate IsSettlement(e: Effect) {
    e.Ack? || e.Nack?
  }

  function CountSettlements(es: seq<Effect>): nat {
    if es == [] then 0 else (if IsSettlement(es[0]) then 1 else 0) + CountSettlements(es[1..])
  }

  /** A delivery is settled exactly once unless an unhandled exception carries RejectRequest; then
      it is nacked and, still, replied to and acked. */
  lemma SettledOnceIffNotRejected(d: Delivery, a: Attempt)
    requires d.hasAction && !Judge(a, d.genericReturn).RunAgain?
    ensures var x := a.exit.ctx.executed;
            CountSettlements(Settlement(d, Judge(a, d.genericReturn))) == 1 <==>
            !(!a.exit.threw && !a.aborted && x.exception.Some? && !x.exceptionHandled && x.strategy == RejectRequest)
  {
    var v := Judge(a, d.genericReturn);
    match v
    case Reply(b) =>
      assert Settlement(d, v)[1..] == [Ack(d.tag)];
      assert CountSettlements([Ack(d.tag)]) == 1;
    case NackAndReply =>
      assert Settlement(d, v)[1..] == [Publish(d.replyTo, d.id, Empty), Ack(d.tag)];
      assert Settlement(d, v)[1..][1..] == [Ack(d.tag)];
      assert CountSettlements([Ack(d.tag)]) == 1;
    case Fail =>
  }

  // ---- The pipeline of an action that carries the retry filter ----

  /** A service deriving from `RabbitService` takes part in every stage, here with empty hooks. */
  const SERVICE: Filter :=
    Filter(0, 0, 0, Some(IDENTITY), Some(IDENTITY), Some((IDENTITY, IDENTITY)), Some(TemplateBody(IDENTITY, IDENTITY)))

  ghost predicate TransparentHook(h: Option<Hook>) {
    h.Some? ==> forall c :: h.value(c) == Exit(c, false)
  }

  /** A filter that may do what it likes but hands the contexts and exceptions through, in whatever
      stages it takes part. */
  ghost predicate Transparent(f: Filter) {
    && TransparentHook(f.init) && TransparentHook(f.bind)
    && (IsActionFilter(f) ==>
          forall next: Chain, action: Action, c: Contexts ::
            RunHooks(HooksOf(f), next, action, c).exit == RunNext(next, action, c).exit)
  }

  /** The other filters of a request: those listed before and after the retry filter among the
      filters of the action, of the service and of the host, and the service instance. */
  datatype Others = Others(before: seq<Filter>, after: seq<Filter>, instance: Option<Filter>)

  ghost predicate TransparentList(fs: seq<Filter>) {
    fs != [] ==> Transparent(fs[0]) && TransparentList(fs[1..])
  }

  ghost predicate AllTransparent(others: Others) {
    && TransparentList(others.before) && TransparentList(others.after)
    && (others.instance.Some? ==> Transparent(others.instance.value))
  }

  function RetryExit(others: Others, s: Settings, execution: nat, o: ActionOutcome, delayThrows: bool): Exit {
    var listed := others.before + ([RetryFilter(s, execution, delayThrows)] + others.after);
    RunRequest(Filters(listed, [], [], others.instance), _ => o)
  }

  predicate Retries(s: Settings, execution: nat, o: ActionOutcome) {
    o == Threw(ConcurrencyException) && execution <= s.maximumRetries
  }

  /** A service that overrides none of its hooks is transparent. */
  lemma ServiceIsTransparent()
    ensures Transparent(SERVICE)
  {
    forall next: Chain, action: Action, c: Contexts
      ensures RunHooks(HooksOf(SERVICE), next, action, c).exit == RunNext(next, action, c).exit {
      SyncLinkIsAsyncLink(IDENTITY, IDENTITY, next, action, c);
    }
  }

  /** Filters that never ask for a re-execution need not be transparent. */
  lemma HandlerIsNotTransparent()
    ensures NeverAsks(HANDLER) && !Transparent(HANDLER)
  {
    var action: Action := _ => Returned(None);
    var next := RunNext(Termination, action, FRESH).exit;
    assert RunHooks(HooksOf(HANDLER), Termination, action, FRESH).exit == HANDLE(next.ctx);
    assert HANDLE(next.ctx).ctx.executed.exceptionHandled && !next.ctx.executed.exceptionHandled;
  }

  /** `fs` is `retry` once, among transparent filters. */
  ghost predicate OneRetry(fs: seq<Filter>, retry: Filter) {
    fs != [] && ((fs[0] == retry && TransparentList(fs[1..])) || (Transparent(fs[0]) && OneRetry(fs[1..], retry)))
  }

  lemma {:induction false} OneRetryListed(before: seq<Filter>, retry: Filter, after: seq<Filter>)
    requires TransparentList(before) && TransparentList(after)
    ensures OneRetry(before + ([retry] + after), retry)
  {
    if before == [] {
      assert before + ([retry] + after) == [retry] + after && ([retry] + after)[1..] == after;
    } else {
      assert (before + ([retry] + after))[1..] == before[1..] + ([retry] + after);
      OneRetryListed(before[1..], retry, after);
    }
  }

  lemma {:induction false} InsertTransparent(f: Filter, fs: seq<Filter>)
    requires Transparent(f) && TransparentList(fs)
    ensures TransparentList(Insert(f, fs))
  {
    if fs != [] && Before(fs[0], f) {
      InsertTransparent(f, fs[1..]);
      assert Insert(f, fs)[1..] == Insert(f, fs[1..]);
    } else {
      assert ([f] + fs)[1..] == fs;
    }
  }

  lemma {:induction false} InsertRetry(retry: Filter, fs: seq<Filter>)
    requires TransparentList(fs)
    ensures OneRetry(Insert(retry, fs), retry)
  {
    if fs != [] && Before(fs[0], retry) {
      InsertRetry(retry, fs[1..]);
      assert Insert(retry, fs)[1..] == Insert(retry, fs[1..]);
    } else {
      assert ([retry] + fs)[1..] == fs;
    }
  }

  lemma {:induction false} InsertBesideRetry(f: Filter, fs: seq<Filter>, retry: Filter)
    requires Transparent(f) && OneRetry(fs, retry)
    ensures OneRetry(Insert(f, fs), retry)
  {
    if Before(fs[0], f) {
      assert Insert(f, fs)[1..] == Insert(f, fs[1..]);
      if fs[0] == retry && TransparentList(fs[1..]) {
        InsertTransparent(f, fs[1..]);
      } else {
        InsertBesideRetry(f, fs[1..], retry);
      }
    } else {
      assert ([f] + fs)[1..] == fs;
    }
  }

  lemma {:induction false} ArrangeTransparent(fs: seq<Filter>)
    requires TransparentList(fs)
    ensures TransparentList(Arrange(fs))
  {
    if fs != [] {
      ArrangeTransparent(fs[1..]);
      InsertTransparent(fs[0], Arrange(fs[1..]));
    }
  }

  /** Arranging by order and scope moves the retry filter among the others, and no more. */
  lemma {:induction false} ArrangeOneRetry(fs: seq<Filter>, retry: Filter)
    requires OneRetry(fs, retry)
    ensures OneRetry(Arrange(fs), retry)
  {
    if fs[0] == retry && TransparentList(fs[1..]) {
      ArrangeTransparent(fs[1..]);
      InsertRetry(retry, Arrange(fs[1..]));
    } else {
      ArrangeOneRetry(fs[1..], retry);
      InsertBesideRetry(fs[0], Arrange(fs[1..]), retry);
    }
  }

  lemma {:induction false} HooksPassTransparent(stage: Stage, fs: seq<Filter>, c: Contexts)
    requires TransparentList(fs)
    ensures RunStage(StageHooks(stage, fs), c).1 == Exit(c, false)
  {
    if fs != [] {
      HooksPassTransparent(stage, fs[1..], c);
      HookPasses(stage, fs, c);
    }
  }

  lemma HookPasses(stage: Stage, fs: seq<Filter>, c: Contexts)
    requires fs != [] && TransparentHook(HookOf(stage, fs[0]))
    ensures RunStage(StageHooks(stage, fs), c).1 == RunStage(StageHooks(stage, fs[1..]), c).1
  {
    var rest := StageHooks(stage, fs[1..]);
    if HookOf(stage, fs[0]).Some? {
      assert StageHooks(stage, fs)[1..] == rest;
    } else {
      assert StageHooks(stage, fs) == rest;
    }
  }

  lemma {:induction false} HooksPass(stage: Stage, fs: seq<Filter>, retry: Filter, c: Contexts)
    requires OneRetry(fs, retry) && retry.init.None? && retry.bind.None?
    ensures RunStage(StageHooks(stage, fs), c).1 == Exit(c, false)
  {
    HookPasses(stage, fs, c);
    if fs[0] == retry && TransparentList(fs[1..]) {
      HooksPassTransparent(stage, fs[1..], c);
    } else {
      HooksPass(stage, fs[1..], retry, c);
    }
  }

  /** Transparent filters around the action leave what the action leaves. */
  lemma {:induction false} ActionsPass(fs: seq<Filter>, action: Action, c: Contexts)
    requires TransparentList(fs) && !ShortCircuited(c)
    ensures Run(NestActions(fs), action, c).exit == Invoke(action, c).exit
  {
    if fs != [] {
      ActionsPass(fs[1..], action, c);
    }
  }

  /** What the retry filter makes of the method's own contexts. */
  function AfterRetry(s: Settings, execution: nat, o: ActionOutcome, delayThrows: bool): Exit {
    var x := Invoke(_ => o, FRESH).exit.ctx;
    if Retries(s, execution, o)
    then Exit(x.(executed := x.executed.(strategy := ReExecute)), delayThrows) else Exit(x, false)
  }

  lemma RetryLink(s: Settings, execution: nat, o: ActionOutcome, delayThrows: bool, next: Chain)
    requires RunNext(next, _ => o, FRESH).exit == Invoke(_ => o, FRESH).exit
    ensures RunHooks(HooksOf(RetryFilter(s, execution, delayThrows)), next, _ => o, FRESH).exit ==
            AfterRetry(s, execution, o, delayThrows)
  {
    var action: Action := _ => o;
    var body := RetryBody(s, execution, delayThrows);
    var x := RunNext(next, action, FRESH).exit;
    var entry := [Exit(FRESH, false)];
    var seen := entry + [x];
    assert body.react(entry) == CallNext(FRESH);
    assert seen[|seen| - 1] == x;
    assert RunHooks(AsyncHooks(body), next, action, FRESH).exit == RunBody(body, seen, next, action).exit;
  }

  lemma {:induction false} RetryStage(s: Settings, execution: nat, o: ActionOutcome, delayThrows: bool, fs: seq<Filter>)
    requires OneRetry(fs, RetryFilter(s, execution, delayThrows))
    ensures Run(NestActions(fs), _ => o, FRESH).exit == AfterRetry(s, execution, o, delayThrows)
  {
    var retry := RetryFilter(s, execution, delayThrows);
    if fs[0] == retry && TransparentList(fs[1..]) {
      RetryHead(s, execution, o, delayThrows, fs);
    } else {
      TransparentLink(fs, _ => o, FRESH);
      RetryStage(s, execution, o, delayThrows, fs[1..]);
    }
  }

  lemma TransparentLink(fs: seq<Filter>, action: Action, c: Contexts)
    requires fs != [] && Transparent(fs[0]) && !ShortCircuited(c)
    ensures Run(NestActions(fs), action, c).exit == Run(NestActions(fs[1..]), action, c).exit
  {
  }

  lemma RetryHead(s: Settings, execution: nat, o: ActionOutcome, delayThrows: bool, fs: seq<Filter>)
    requires fs != [] && fs[0] == RetryFilter(s, execution, delayThrows) && TransparentList(fs[1..])
    ensures Run(NestActions(fs), _ => o, FRESH).exit == AfterRetry(s, execution, o, delayThrows)
  {
    ActionsPass(fs[1..], _ => o, FRESH);
    RetryLink(s, execution, o, delayThrows, NestActions(fs[1..]));
  }

  /** The whole pipeline of such an action, whatever transparent filters there are beside the retry
      filter: the method's own outcome in the executed context, with strategy ReExecute exactly on a
      concurrency error that may still be retried. */
  lemma RetryExitIs(others: Others, s: Settings, execution: nat, o: ActionOutcome, delayThrows: bool)
    requires AllTransparent(others)
    ensures RetryExit(others, s, execution, o, delayThrows) == AfterRetry(s, execution, o, delayThrows)
  {
    var retry := RetryFilter(s, execution, delayThrows);
    var listed := others.before + ([retry] + others.after);
    var fs := RequestFilters(listed, [], [], others.instance);
    RequestHasOneRetry(others, retry);
    PipelinePasses(fs, retry, _ => o);
    RetryStage(s, execution, o, delayThrows, fs);
  }

  lemma RequestHasOneRetry(others: Others, retry: Filter)
    requires AllTransparent(others)
    ensures OneRetry(RequestFilters(others.before + ([retry] + others.after), [], [], others.instance), retry)
  {
    var listed := others.before + ([retry] + others.after);
    OneRetryListed(others.before, retry, others.after);
    ArrangeOneRetry(listed, retry);
    assert listed + [] + [] == listed;
    if others.instance.Some? {
      assert ([others.instance.value] + Arrange(listed))[1..] == Arrange(listed);
    } else {
      assert [] + Arrange(listed) == Arrange(listed);
    }
  }

  /** The hook stages hand everything on to the action stage. */
  lemma PipelinePasses(fs: seq<Filter>, retry: Filter, action: Action)
    requires OneRetry(fs, retry) && retry.init.None? && retry.bind.None?
    ensures Run(Pipeline(fs), action, FRESH).exit == Run(NestActions(fs), action, FRESH).exit
  {
    HooksPass(Initialization, fs, retry, FRESH);
    HooksPass(Binding, fs, retry, FRESH);
    StagesByHooks(fs, action, FRESH);
  }

  /** The verdict of the host on one execution of an action with the retry filter, in closed form. */
  function RetryVerdict(s: Settings, execution: nat, o: ActionOutcome, delayThrows: bool, aborted: bool): Verdict {
    if Retries(s, execution, o) then
      if delayThrows then Fail else if aborted then Reply(Canceled) else RunAgain
    else if aborted then Reply(Canceled)
    else match o case Returned(v) => Reply(Value(v)) case Threw(e) => Reply(Error(e))
  }

  /** The closed form is what building and running the chain and judging its contexts gives. */
  lemma RetryVerdictIsThePipelines(
    others: Others, s: Settings, execution: nat, o: ActionOutcome, delayThrows: bool, aborted: bool, genericReturn: bool)
    requires AllTransparent(others)
    ensures Judge(Attempt(RetryExit(others, s, execution, o, delayThrows), aborted), genericReturn) ==
            RetryVerdict(s, execution, o, delayThrows, aborted)
  {
    RetryExitIs(others, s, execution, o, delayThrows);
    JudgeAfterRetry(s, execution, o, delayThrows, aborted, genericReturn);
  }

  lemma JudgeAfterRetry(s: Settings, execution: nat, o: ActionOutcome, delayThrows: bool, aborted: bool, genericReturn: bool)
    ensures Judge(Attempt(AfterRetry(s, execution, o, delayThrows), aborted), genericReturn) ==
            RetryVerdict(s, execution, o, delayThrows, aborted)
  {
  }
}

/** Who can ask for a re-execution: a pipeline none of whose filters asks for one never leaves with
    that strategy, whatever else its filters do. */
module ReExecution {
  import opened Basics
  import opened FilterPipeline
  import opened FilterLaws
  import opened Retry

  /** The filters of one execution, by where they are declared, and the service instance. */
  datatype Filters = Filters(action: seq<Filter>, service: seq<Filter>, global: seq<Filter>, instance: Option<Filter>)

  function RunRequest(filters: Filters, action: Action): Exit {
    Run(Pipeline(RequestFilters(filters.action, filters.service, filters.global, filters.instance)), action, FRESH).exit
  }

  /** `InvokeActionAsync`: arranges the filters, builds the chain, and runs it on fresh contexts. What
      it leaves is what the initializations leave, or the bindings after them, or, if neither throws,
      the action stage after both. */
  method InvokeAction(filters: Filters, action: Action) returns (exit: Exit)
    ensures exit == RunRequest(filters, action)
    ensures var fs := RequestFilters(filters.action, filters.service, filters.global, filters.instance);
            var inits := RunInits(fs, FRESH).1;
            var binds := RunBinds(fs, inits.ctx).1;
            exit == if inits.threw then inits else if binds.threw then binds
                    else Run(NestActions(fs), action, binds.ctx).exit
  {
    var fs := RequestFilters(filters.action, filters.service, filters.global, filters.instance);
    var chain := BuildChain(fs);
    var contexts := new SharedContexts();
    var threw := contexts.Execute(chain, action);
    exit := Exit(contexts.ctx, threw);
    StagesInOrder(fs, action, FRESH);
  }

  predicate Asks(c: Contexts) {
    c.executed.strategy == ReExecute
  }

  /** A hook that does not turn contexts without the request for a re-execution into ones with it. */
  ghost predicate HookNeverAsks(h: Hook) {
    forall c :: !Asks(c) ==> !Asks(h(c).ctx)
  }

  predicate NoneAsked(seen: seq<Exit>) {
    forall i :: 0 <= i < |seen| ==> !Asks(seen[i].ctx)
  }

  /** A body that asks neither the rest of the chain nor the host, as long as nobody asks it. */
  ghost predicate BodyNeverAsks(b: Body) {
    forall seen: seq<Exit> :: NoneAsked(seen) ==>
      match b.react(seen)
      case CallNext(c) => !Asks(c)
      case Leave(e) => !Asks(e.ctx)
  }

  ghost predicate HooksNeverAsk(hooks: ActionHooks) {
    match hooks
    case SyncHooks(onExecuting, onExecuted) => HookNeverAsks(onExecuting) && HookNeverAsks(onExecuted)
    case AsyncHooks(body) => BodyNeverAsks(body)
  }

  /** A filter that may change anything else, throw, short-circuit, handle exceptions, or call `next`
      any number of times. */
  ghost predicate NeverAsks(f: Filter) {
    && (f.init.Some? ==> HookNeverAsks(f.init.value))
    && (f.bind.Some? ==> HookNeverAsks(f.bind.value))
    && (IsActionFilter(f) ==> HooksNeverAsk(HooksOf(f)))
  }

  ghost predicate IsRetryFilter(s: Settings, execution: nat, f: Filter) {
    exists delayThrows :: f == RetryFilter(s, execution, delayThrows)
  }

  /** Of all the filters of an execution only retry filters may ask. */
  ghost predicate OnlyRetryAsks(s: Settings, execution: nat, filters: Filters) {
    && (forall f :: f in filters.action + filters.service + filters.global ==>
          NeverAsks(f) || IsRetryFilter(s, execution, f))
    && (filters.instance.Some? ==> NeverAsks(filters.instance.value))
  }

  /** The retry filter itself does not ask after execution MaximumRetries. */
  lemma RetryGivesUp(s: Settings, execution: nat, f: Filter)
    requires IsRetryFilter(s, execution, f) && execution > s.maximumRetries
    ensures NeverAsks(f)
  {
    var delayThrows :| f == RetryFilter(s, execution, delayThrows);
    var body := RetryBody(s, execution, delayThrows);
    forall seen: seq<Exit> | NoneAsked(seen)
      ensures match body.react(seen)
              case CallNext(c) => !Asks(c)
              case Leave(e) => !Asks(e.ctx)
    {
      if |seen| > 0 { assert !Asks(seen[|seen| - 1].ctx); }
    }
  }

  ghost predicate ListNeverAsks(fs: seq<Filter>) {
    forall f :: f in fs ==> NeverAsks(f)
  }

  // ---- The action stage ----

  lemma {:induction false} ActionsNeverAsk(fs: seq<Filter>, action: Action, c: Contexts)
    requires ListNeverAsks(fs) && !Asks(c)
    ensures !Asks(Run(NestActions(fs), action, c).exit.ctx)
    decreases NestActions(fs), 1, |fs|
  {
    if fs != [] {
      assert fs[0] in fs && forall f :: f in fs[1..] ==> f in fs;
      if IsActionFilter(fs[0]) {
        HooksLeaveUnasked(HooksOf(fs[0]), fs[1..], action, c);
      } else {
        ActionsNeverAsk(fs[1..], action, c);
      }
    }
  }

  lemma {:induction false} NextNeverAsks(fs: seq<Filter>, action: Action, c: Contexts)
    requires ListNeverAsks(fs) && !Asks(c)
    ensures !Asks(RunNext(NestActions(fs), action, c).exit.ctx)
    decreases NestActions(fs), 2, |fs|
  {
    ActionsNeverAsk(fs, action, c);
  }

  lemma {:induction false} HooksLeaveUnasked(hooks: ActionHooks, fs: seq<Filter>, action: Action, c: Contexts)
    requires HooksNeverAsk(hooks) && ListNeverAsks(fs) && !Asks(c)
    ensures !Asks(RunHooks(hooks, NestActions(fs), action, c).exit.ctx)
    decreases NestActions(fs), 4, |fs|
  {
    match hooks
    case SyncHooks(onExecuting, onExecuted) => NextNeverAsks(fs, action, onExecuting(c).ctx);
    case AsyncHooks(body) => BodyLeavesUnasked(body, [Exit(c, false)], fs, action);
  }

  lemma {:induction false} BodyLeavesUnasked(body: Body, seen: seq<Exit>, fs: seq<Filter>, action: Action)
    requires 1 <= |seen| <= body.limit + 1
    requires BodyNeverAsks(body) && NoneAsked(seen) && ListNeverAsks(fs)
    ensures !Asks(RunBody(body, seen, NestActions(fs), action).exit.ctx)
    decreases NestActions(fs), 3, body.limit + 1 - |seen|
  {
    match body.react(seen)
    case Leave(_) =>
    case CallNext(c) =>
      if |seen| <= body.limit {
        NextNeverAsks(fs, action, c);
        BodyLeavesUnasked(body, seen + [RunNext(NestActions(fs), action, c).exit], fs, action);
      }
  }

  // ---- The hook stages and the arrangement ----

  lemma {:induction false} StageNeverAsks(stage: Stage, fs: seq<Filter>, c: Contexts)
    requires ListNeverAsks(fs) && !Asks(c)
    ensures !Asks(RunStage(StageHooks(stage, fs), c).1.ctx)
  {
    if fs != [] {
      assert fs[0] in fs && forall f :: f in fs[1..] ==> f in fs;
      var hs, rest, h := StageHooks(stage, fs), StageHooks(stage, fs[1..]), HookOf(stage, fs[0]);
      if h.Some? {
        assert hs[0].1 == h.value && hs[1..] == rest;
        StageNeverAsks(stage, fs[1..], h.value(c).ctx);
      } else {
        assert hs == rest;
        StageNeverAsks(stage, fs[1..], c);
      }
    }
  }

  lemma {:induction false} ArrangeMembers(fs: seq<Filter>)
    ensures forall f :: f in Arrange(fs) <==> f in fs
  {
    if fs != [] {
      ArrangeMembers(fs[1..]);
      InsertMembers(fs[0], Arrange(fs[1..]));
      assert forall f :: f in fs <==> f == fs[0] || f in fs[1..];
    }
  }

  /** A pipeline none of whose filters asks for a re-execution does not ask for one, whatever the
      action does. */
  lemma PipelineNeverAsks(fs: seq<Filter>, action: Action)
    requires ListNeverAsks(fs)
    ensures !Asks(Run(Pipeline(fs), action, FRESH).exit.ctx)
  {
    var inits, binds := StageHooks(Initialization, fs), StageHooks(Binding, fs);
    StagesByHooks(fs, action, FRESH);
    StageNeverAsks(Initialization, fs, FRESH);
    var afterInit := RunStage(inits, FRESH).1;
    StageNeverAsks(Binding, fs, afterInit.ctx);
    var afterBind := RunStage(binds, afterInit.ctx).1;
    ActionsNeverAsk(fs, action, afterBind.ctx);
  }

  /** When only retry filters ask, nobody does after execution MaximumRetries. */
  lemma NobodyAsks(s: Settings, execution: nat, filters: Filters, action: Action)
    requires OnlyRetryAsks(s, execution, filters) && execution > s.maximumRetries
    ensures !Asks(RunRequest(filters, action).ctx)
  {
    var listed := filters.action + filters.service + filters.global;
    var fs := RequestFilters(filters.action, filters.service, filters.global, filters.instance);
    ArrangeMembers(listed);
    forall f | f in fs ensures NeverAsks(f) {
      if f in listed && IsRetryFilter(s, execution, f) {
        RetryGivesUp(s, execution, f);
      }
    }
    PipelineNeverAsks(fs, action);
  }

  /** A filter that handles every exception. */
  const HANDLER: Filter := Filter(2, 0, 0, None, None, Some((IDENTITY, HANDLE)), None)

  const HANDLE: Hook := (c: Contexts) => Exit(c.(executed := c.executed.(exceptionHandled := true)), false)
}

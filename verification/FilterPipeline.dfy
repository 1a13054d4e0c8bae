/** The server filter pipeline: chain links, the reversed loops that build the chain, and the
    meaning of running it as a trace of events over the shared contexts. */
module FilterPipeline {
  import opened Basics

  datatype Strategy = PropagateToClient | ReturnDefault | ReExecute | RejectRequest

  datatype ExecutingContext = ExecutingContext(result: Option<int>, exception: Option<Exn>)

  datatype ExecutedContext = ExecutedContext(
    canceled: bool, exceptionHandled: bool, result: Option<int>, exception: Option<Exn>, strategy: Strategy)

  /** The two contexts that every link of one chain shares. */
  datatype Contexts = Contexts(executing: ExecutingContext, executed: ExecutedContext)

  const FRESH: Contexts :=
    Contexts(ExecutingContext(None, None), ExecutedContext(false, false, None, None, PropagateToClient))

  /** How user code (a hook, a filter body or the rest of the chain) hands control back. */
  datatype Exit = Exit(ctx: Contexts, threw: bool)

  type Hook = Contexts -> Exit

  /** What an async filter body does next, seen from outside. */
  datatype Move = CallNext(ctx: Contexts) | Leave(exit: Exit)

  /** An async body is a deterministic reaction to everything it has seen: the contexts on entry
      and the exits of all its calls of `next` so far. `limit` bounds the calls of one run; a
      terminating body has such a bound for every run. */
  datatype Body = Body(limit: nat, react: seq<Exit> -> Move)

  datatype ActionHooks =
    | SyncHooks(onExecuting: Hook, onExecuted: Hook)
    | AsyncHooks(body: Body)

  /** A filter instance; one object can take part in several stages. */
  datatype Filter = Filter(
    id: nat, order: int, scope: int, init: Option<Hook>, bind: Option<Hook>, sync: Option<(Hook, Hook)>, async: Option<Body>)

  /** The two stages whose links run one hook and then call on. */
  datatype Stage = Initialization | Binding

  datatype Chain =
    | Termination
    | ActionLink(id: nat, hooks: ActionHooks, next: Chain)
    | HookLink(stage: Stage, id: nat, hook: Hook, next: Chain)

  /** `Left` closes `Entered`; `threw` says whether the link was left by an exception. */
  datatype Event =
    | Hooked(stage: Stage, id: nat)
    | Entered(id: nat)
    | Left(id: nat, threw: bool)
    | Invoked

  datatype ActionOutcome = Returned(value: Option<int>) | Threw(error: Exn)

  /** The service method, as a function of what the filters left in the contexts. */
  type Action = Contexts -> ActionOutcome

  datatype Outcome = Outcome(trace: seq<Event>, exit: Exit)

  // ---- Running a chain ----

  predicate ShortCircuited(c: Contexts) {
    c.executing.result.Some? || c.executing.exception.Some?
  }

  function Cancel(c: Contexts): Contexts {
    c.(executed := c.executed.(canceled := true, result := c.executing.result, exception := c.executing.exception))
  }

  /** `ExecuteActionAsync`: exceptions of the method are stored, never thrown. */
  function Invoke(action: Action, c: Contexts): Outcome {
    if c.executed.canceled then Outcome([], Exit(c, false))
    else
      match action(c)
      case Returned(v) => Outcome([Invoked], Exit(c.(executed := c.executed.(result := v)), false))
      case Threw(e) => Outcome([Invoked], Exit(c.(executed := c.executed.(exception := Some(e))), false))
  }

  function Run(chain: Chain, action: Action, c: Contexts): Outcome
    decreases chain, 1, 0
  {
    match chain
    case Termination => Invoke(action, c)
    case HookLink(stage, id, hook, next) =>
      var e := hook(c);
      if e.threw then Outcome([Hooked(stage, id)], e)
      else var r := Run(next, action, e.ctx); Outcome([Hooked(stage, id)] + r.trace, r.exit)
    case ActionLink(id, hooks, next) =>
      var r := RunHooks(hooks, next, action, c);
      Outcome([Entered(id)] + r.trace + [Left(id, r.exit.threw)], r.exit)
  }

  /** The guard that both kinds of action link put in front of `next`. */
  function RunNext(next: Chain, action: Action, c: Contexts): Outcome
    decreases next, 2, 0
  {
    if ShortCircuited(c) then Outcome([], Exit(Cancel(c), false)) else Run(next, action, c)
  }

  function RunHooks(hooks: ActionHooks, next: Chain, action: Action, c: Contexts): Outcome
    decreases next, 4, 0
  {
    match hooks
    case SyncHooks(onExecuting, onExecuted) =>
      var e := onExecuting(c);
      if e.threw then Outcome([], e)
      else
        var r := RunNext(next, action, e.ctx);
        if r.exit.threw then r else Outcome(r.trace, onExecuted(r.exit.ctx))
    case AsyncHooks(body) => RunBody(body, [Exit(c, false)], next, action)
  }

  function RunBody(body: Body, seen: seq<Exit>, next: Chain, action: Action): Outcome
    requires 1 <= |seen| <= body.limit + 1
    decreases next, 3, body.limit + 1 - |seen|
  {
    match body.react(seen)
    case Leave(e) => Outcome([], e)
    case CallNext(c) =>
      if |seen| == body.limit + 1 then Outcome([], Exit(c, false))
      else
        var r := RunNext(next, action, c);
        var rest := RunBody(body, seen + [r.exit], next, action);
        Outcome(r.trace + rest.trace, rest.exit)
  }

  /** `OnActionExecutionAsync` of `ActionFilterAttribute` and `RabbitService`: the two hooks around
      one call of `next`. */
  function TemplateBody(onExecuting: Hook, onExecuted: Hook): Body {
    Body(1, (seen: seq<Exit>) =>
      if |seen| == 1 then
        var e := onExecuting(seen[0].ctx);
        if e.threw then Leave(e) else CallNext(e.ctx)
      else if |seen| == 0 then Leave(Exit(FRESH, false))
      else if seen[|seen| - 1].threw then Leave(seen[|seen| - 1])
      else Leave(onExecuted(seen[|seen| - 1].ctx)))
  }

  // ---- Building the chain ----

  predicate IsActionFilter(f: Filter) {
    f.async.Some? || f.sync.Some?
  }

  /** A filter that is both kinds is used as an async filter. */
  function HooksOf(f: Filter): ActionHooks
    requires IsActionFilter(f)
  {
    if f.async.Some? then AsyncHooks(f.async.value) else SyncHooks(f.sync.value.0, f.sync.value.1)
  }

  /** The chain in which the filters of each stage are nested in list order, first one outermost. */
  function NestActions(fs: seq<Filter>): Chain {
    if fs == [] then Termination
    else if IsActionFilter(fs[0]) then ActionLink(fs[0].id, HooksOf(fs[0]), NestActions(fs[1..]))
    else NestActions(fs[1..])
  }

  function HookOf(stage: Stage, f: Filter): Option<Hook> {
    if stage == Initialization then f.init else f.bind
  }

  /** The filters of one hook stage (`OfType`), in list order. */
  function StageHooks(stage: Stage, fs: seq<Filter>): seq<(nat, Hook)> {
    if fs == [] then []
    else
      var h := HookOf(stage, fs[0]);
      (if h.Some? then [(fs[0].id, h.value)] else []) + StageHooks(stage, fs[1..])
  }

  function NestStage(stage: Stage, hs: seq<(nat, Hook)>, inner: Chain): Chain {
    if hs == [] then inner else HookLink(stage, hs[0].0, hs[0].1, NestStage(stage, hs[1..], inner))
  }

  function Pipeline(fs: seq<Filter>): Chain {
    NestStage(Initialization, StageHooks(Initialization, fs),
              NestStage(Binding, StageHooks(Binding, fs), NestActions(fs)))
  }

  /** The three loops of `InvokeActionAsync` over the reversed list, each wrapping `chain`. */
  method BuildChain(fs: seq<Filter>) returns (chain: Chain)
    ensures chain == Pipeline(fs)
  {
    chain := Termination;
    var i := |fs|;
    while i > 0
      invariant 0 <= i <= |fs|
      invariant chain == NestActions(fs[i..])
    {
      i := i - 1;
      assert fs[i..][1..] == fs[i + 1..];
      if fs[i].async.Some? {
        chain := ActionLink(fs[i].id, AsyncHooks(fs[i].async.value), chain);
      } else if fs[i].sync.Some? {
        chain := ActionLink(fs[i].id, SyncHooks(fs[i].sync.value.0, fs[i].sync.value.1), chain);
      }
    }
    assert fs[0..] == fs;
    ghost var actions := chain;
    i := |fs|;
    while i > 0
      invariant 0 <= i <= |fs|
      invariant chain == NestStage(Binding, StageHooks(Binding, fs[i..]), actions)
    {
      i := i - 1;
      assert fs[i..][1..] == fs[i + 1..];
      if fs[i].bind.Some? {
        assert StageHooks(Binding, fs[i..])[1..] == StageHooks(Binding, fs[i + 1..]);
        chain := HookLink(Binding, fs[i].id, fs[i].bind.value, chain);
      } else {
        assert StageHooks(Binding, fs[i..]) == StageHooks(Binding, fs[i + 1..]);
      }
    }
    ghost var bound := chain;
    i := |fs|;
    while i > 0
      invariant 0 <= i <= |fs|
      invariant chain == NestStage(Initialization, StageHooks(Initialization, fs[i..]), bound)
    {
      i := i - 1;
      assert fs[i..][1..] == fs[i + 1..];
      if fs[i].init.Some? {
        assert StageHooks(Initialization, fs[i..])[1..] == StageHooks(Initialization, fs[i + 1..]);
        chain := HookLink(Initialization, fs[i].id, fs[i].init.value, chain);
      } else {
        assert StageHooks(Initialization, fs[i..]) == StageHooks(Initialization, fs[i + 1..]);
      }
    }
  }

  // ---- Running on shared, mutable contexts ----

  /** The context objects of one request, with the events recorded so far. */
  class SharedContexts {
    var ctx: Contexts
    var trace: seq<Event>

    constructor ()
      ensures ctx == FRESH && trace == []
    {
      ctx, trace := FRESH, [];
    }

    /** `ExecuteAsync` of every link, assigning the contexts in place. */
    method Execute(chain: Chain, action: Action) returns (threw: bool)
      modifies this
      ensures var r := Run(chain, action, old(ctx));
              ctx == r.exit.ctx && threw == r.exit.threw && trace == old(trace) + r.trace
      ensures chain.Termination? ==>
                && !threw
                && trace == old(trace) + (if old(ctx).executed.canceled then [] else [Invoked])
                && ctx == if old(ctx).executed.canceled then old(ctx)
                          else match action(old(ctx))
                               case Returned(v) => old(ctx).(executed := old(ctx).executed.(result := v))
                               case Threw(e) => old(ctx).(executed := old(ctx).executed.(exception := Some(e)))
      decreases chain, 1, 0
    {
      match chain
      case Termination =>
        threw := false;
        if !ctx.executed.canceled {
          trace := trace + [Invoked];
          match action(ctx)
          case Returned(v) => ctx := ctx.(executed := ctx.executed.(result := v));
          case Threw(e) => ctx := ctx.(executed := ctx.executed.(exception := Some(e)));
        }
      case HookLink(stage, id, hook, next) =>
        trace := trace + [Hooked(stage, id)];
        var e := hook(ctx);
        ctx, threw := e.ctx, e.threw;
        if !threw {
          threw := Execute(next, action);
        }
      case ActionLink(id, hooks, next) =>
        trace := trace + [Entered(id)];
        threw := ExecuteHooks(hooks, next, action);
        trace := trace + [Left(id, threw)];
    }

    method ExecuteNext(next: Chain, action: Action) returns (threw: bool)
      modifies this
      ensures old(ctx).executing.result.None? && old(ctx).executing.exception.None? ==>
                var r := Run(next, action, old(ctx));
                ctx == r.exit.ctx && threw == r.exit.threw && trace == old(trace) + r.trace
      ensures old(ctx).executing.result.Some? || old(ctx).executing.exception.Some? ==>
                && !threw && trace == old(trace) && ctx.executing == old(ctx).executing
                && ctx.executed == old(ctx).executed.(canceled := true, result := old(ctx).executing.result,
                                                      exception := old(ctx).executing.exception)
      ensures var r := RunNext(next, action, old(ctx));
              ctx == r.exit.ctx && threw == r.exit.threw && trace == old(trace) + r.trace
      decreases next, 2, 0
    {
      if ctx.executing.result.None? && ctx.executing.exception.None? {
        threw := Execute(next, action);
      } else {
        ctx := ctx.(executed := ctx.executed.(canceled := true));
        ctx := ctx.(executed := ctx.executed.(result := ctx.executing.result));
        ctx := ctx.(executed := ctx.executed.(exception := ctx.executing.exception));
        threw := false;
      }
    }

    method ExecuteHooks(hooks: ActionHooks, next: Chain, action: Action) returns (threw: bool)
      modifies this
      ensures hooks.SyncHooks? && hooks.onExecuting(old(ctx)).threw ==>
                threw && ctx == hooks.onExecuting(old(ctx)).ctx && trace == old(trace)
      ensures hooks.SyncHooks? && !hooks.onExecuting(old(ctx)).threw ==>
                var r := RunNext(next, action, hooks.onExecuting(old(ctx)).ctx);
                && trace == old(trace) + r.trace
                && (r.exit.threw ==> threw && ctx == r.exit.ctx)
                && (!r.exit.threw ==> ctx == hooks.onExecuted(r.exit.ctx).ctx && threw == hooks.onExecuted(r.exit.ctx).threw)
      ensures var r := RunHooks(hooks, next, action, old(ctx));
              ctx == r.exit.ctx && threw == r.exit.threw && trace == old(trace) + r.trace
      decreases next, 4, 0
    {
      match hooks
      case SyncHooks(onExecuting, onExecuted) =>
        var e := onExecuting(ctx);
        ctx, threw := e.ctx, e.threw;
        if !threw {
          threw := ExecuteNext(next, action);
          if !threw {
            e := onExecuted(ctx);
            ctx, threw := e.ctx, e.threw;
          }
        }
      case AsyncHooks(body) =>
        threw := ExecuteBody(body, [Exit(ctx, false)], next, action);
    }

    method ExecuteBody(body: Body, seen: seq<Exit>, next: Chain, action: Action) returns (threw: bool)
      requires 1 <= |seen| <= body.limit + 1
      modifies this
      ensures var r := RunBody(body, seen, next, action);
              ctx == r.exit.ctx && threw == r.exit.threw && trace == old(trace) + r.trace
      decreases next, 3, body.limit + 1 - |seen|
    {
      match body.react(seen)
      case Leave(e) =>
        ctx, threw := e.ctx, e.threw;
      case CallNext(c) =>
        ctx, threw := c, false;
        if |seen| <= body.limit {
          threw := ExecuteNext(next, action);
          threw := ExecuteBody(body, seen + [Exit(ctx, threw)], next, action);
        }
    }
  }

  // ---- Nesting: an independent reading of traces ----

  /** The ids of the filters that take part in the action stage, outermost first. */
  function ActionIds(fs: seq<Filter>): seq<nat> {
    if fs == [] then []
    else (if IsActionFilter(fs[0]) then [fs[0].id] else []) + ActionIds(fs[1..])
  }

  function StageEvents(stage: Stage, hs: seq<(nat, Hook)>): seq<Event> {
    seq(|hs|, i requires 0 <= i < |hs| => Hooked(stage, hs[i].0))
  }

  /** A stack automaton whose stack is always `ids[..depth]`: a filter may be entered only directly
      inside its predecessor, only the innermost open filter may be left, and the action runs only
      inside all of them. Returns the depth after `t`, or None when `t` breaks the nesting. */
  function Depth(ids: seq<nat>, t: seq<Event>, depth: nat): Option<nat>
    requires depth <= |ids|
    decreases |t|
  {
    if t == [] then Some(depth)
    else
      match t[0]
      case Entered(id) => if depth < |ids| && ids[depth] == id then Depth(ids, t[1..], depth + 1) else None
      case Left(id, _) => if depth > 0 && ids[depth - 1] == id then Depth(ids, t[1..], depth - 1) else None
      case Invoked => if depth == |ids| then Depth(ids, t[1..], depth) else None
      case Hooked(_, _) => None
  }

  predicate Nested(ids: seq<nat>, t: seq<Event>, depth: nat)
    requires depth <= |ids|
  {
    Depth(ids, t, depth) == Some(depth)
  }

  lemma {:induction false} DepthConcat(ids: seq<nat>, a: seq<Event>, b: seq<Event>, depth: nat)
    requires depth <= |ids| && Nested(ids, a, depth)
    ensures Depth(ids, a + b, depth) == Depth(ids, b, depth)
  {
    DepthConcatAny(ids, a, b, depth);
  }

  lemma {:induction false} DepthConcatAny(ids: seq<nat>, a: seq<Event>, b: seq<Event>, depth: nat)
    requires depth <= |ids|
    ensures Depth(ids, a, depth).Some? ==> Depth(ids, a, depth).value <= |ids|
    ensures Depth(ids, a + b, depth) ==
            if Depth(ids, a, depth).None? then None else Depth(ids, b, Depth(ids, a, depth).value)
    decreases |a|
  {
    if a == [] {
      assert a + b == b;
    } else {
      assert (a + b)[1..] == a[1..] + b;
      match a[0]
      case Entered(id) => if depth < |ids| { DepthConcatAny(ids, a[1..], b, depth + 1); }
      case Left(id, _) => if depth > 0 { DepthConcatAny(ids, a[1..], b, depth - 1); }
      case Invoked => DepthConcatAny(ids, a[1..], b, depth);
      case _ =>
    }
  }

  lemma {:induction false} RunNested(fs: seq<Filter>, before: seq<nat>, action: Action, c: Contexts)
    ensures Nested(before + ActionIds(fs), Run(NestActions(fs), action, c).trace, |before|)
    decreases NestActions(fs), 1, |fs|
  {
    var ids := before + ActionIds(fs);
    if fs == [] {
    } else if !IsActionFilter(fs[0]) {
      assert ActionIds(fs) == ActionIds(fs[1..]);
      RunNested(fs[1..], before, action, c);
    } else {
      var next := NestActions(fs[1..]);
      var inner := before + [fs[0].id];
      assert ids == inner + ActionIds(fs[1..]);
      var r := RunHooks(HooksOf(fs[0]), next, action, c);
      HooksNested(HooksOf(fs[0]), fs[1..], inner, action, c);
      var tail := [Left(fs[0].id, r.exit.threw)];
      DepthConcat(ids, r.trace, tail, |inner|);
      assert ([Entered(fs[0].id)] + r.trace + tail)[1..] == r.trace + tail;
    }
  }

  lemma {:induction false} NextNested(fs: seq<Filter>, before: seq<nat>, action: Action, c: Contexts)
    ensures Nested(before + ActionIds(fs), RunNext(NestActions(fs), action, c).trace, |before|)
    decreases NestActions(fs), 2, |fs|
  {
    RunNested(fs, before, action, c);
  }

  lemma {:induction false} HooksNested(hooks: ActionHooks, fs: seq<Filter>, before: seq<nat>, action: Action, c: Contexts)
    ensures Nested(before + ActionIds(fs), RunHooks(hooks, NestActions(fs), action, c).trace, |before|)
    decreases NestActions(fs), 4, |fs|
  {
    match hooks
    case SyncHooks(onExecuting, onExecuted) => NextNested(fs, before, action, onExecuting(c).ctx);
    case AsyncHooks(body) => BodyNested(body, [Exit(c, false)], fs, before, action);
  }

  lemma {:induction false} BodyNested(body: Body, seen: seq<Exit>, fs: seq<Filter>, before: seq<nat>, action: Action)
    requires 1 <= |seen| <= body.limit + 1
    ensures Nested(before + ActionIds(fs), RunBody(body, seen, NestActions(fs), action).trace, |before|)
    decreases NestActions(fs), 3, body.limit + 1 - |seen|
  {
    match body.react(seen)
    case Leave(_) =>
    case CallNext(c) =>
      if |seen| <= body.limit {
        var r := RunNext(NestActions(fs), action, c);
        NextNested(fs, before, action, c);
        BodyNested(body, seen + [r.exit], fs, before, action);
        DepthConcat(before + ActionIds(fs), r.trace,
                    RunBody(body, seen + [r.exit], NestActions(fs), action).trace, |before|);
      }
  }

  /** How many hooks of a stage run, and how the last of them exits. */
  function RunStage(hs: seq<(nat, Hook)>, c: Contexts): (r: (nat, Exit))
    ensures r.0 <= |hs|
    ensures !r.1.threw ==> r.0 == |hs|
  {
    if hs == [] then (0, Exit(c, false))
    else
      var e := hs[0].1(c);
      if e.threw then (1, e) else var r := RunStage(hs[1..], e.ctx); (1 + r.0, r.1)
  }

  lemma StageEventsHead(stage: Stage, hs: seq<(nat, Hook)>, n: nat)
    requires hs != [] && n <= |hs| - 1
    ensures StageEvents(stage, hs) == [Hooked(stage, hs[0].0)] + StageEvents(stage, hs[1..])
    ensures StageEvents(stage, hs)[..n + 1] == [Hooked(stage, hs[0].0)] + StageEvents(stage, hs[1..])[..n]
  {
    var head, tail := [Hooked(stage, hs[0].0)], StageEvents(stage, hs[1..]);
    assert StageEvents(stage, hs) == head + tail;
    assert (head + tail)[..n + 1] == head + tail[..n];
  }

  lemma {:induction false} StageFirst(stage: Stage, hs: seq<(nat, Hook)>, inner: Chain, action: Action, c: Contexts)
    ensures var (n, e) := RunStage(hs, c);
            var i := Run(inner, action, e.ctx);
            Run(NestStage(stage, hs, inner), action, c) ==
            if e.threw then Outcome(StageEvents(stage, hs)[..n], e)
            else Outcome(StageEvents(stage, hs) + i.trace, i.exit)
  {
    if hs == [] {
      var i := Run(inner, action, c);
      assert StageEvents(stage, hs) + i.trace == i.trace;
    } else {
      var e := hs[0].1(c);
      var head, tail := [Hooked(stage, hs[0].0)], StageEvents(stage, hs[1..]);
      if e.threw {
        StageEventsHead(stage, hs, 0);
        assert head + tail[..0] == head;
      } else {
        StageFirst(stage, hs[1..], inner, action, e.ctx);
        var (n, last) := RunStage(hs[1..], e.ctx);
        StageEventsHead(stage, hs, n);
        var i := Run(inner, action, last.ctx);
        assert head + (tail + i.trace) == (head + tail) + i.trace;
      }
    }
  }

  lemma StagesByHooks(fs: seq<Filter>, action: Action, c: Contexts)
    ensures var inits, binds := StageHooks(Initialization, fs), StageHooks(Binding, fs);
            var (n, afterInit) := RunStage(inits, c);
            var (m, afterBind) := RunStage(binds, afterInit.ctx);
            var inner := Run(NestActions(fs), action, afterBind.ctx);
            Run(Pipeline(fs), action, c) ==
            if afterInit.threw then Outcome(StageEvents(Initialization, inits)[..n], afterInit)
            else if afterBind.threw
            then Outcome(StageEvents(Initialization, inits) + StageEvents(Binding, binds)[..m], afterBind)
            else Outcome(StageEvents(Initialization, inits) + (StageEvents(Binding, binds) + inner.trace), inner.exit)
  {
    var inits, binds := StageHooks(Initialization, fs), StageHooks(Binding, fs);
    StageFirst(Initialization, inits, NestStage(Binding, binds, NestActions(fs)), action, c);
    StageFirst(Binding, binds, NestActions(fs), action, RunStage(inits, c).1.ctx);
  }

  // ---- The hook stages, from the fields of the filters ----

  /** What the initialization hooks of the filters in `fs` leave behind, in list order, if none throws. */
  function InitEvents(fs: seq<Filter>): seq<Event> {
    if fs == [] then []
    else (if fs[0].init.Some? then [Hooked(Initialization, fs[0].id)] else []) + InitEvents(fs[1..])
  }

  function BindEvents(fs: seq<Filter>): seq<Event> {
    if fs == [] then []
    else (if fs[0].bind.Some? then [Hooked(Binding, fs[0].id)] else []) + BindEvents(fs[1..])
  }

  /** How many initialization hooks run from `c`, up to one that throws, and how the last one exits. */
  function RunInits(fs: seq<Filter>, c: Contexts): (nat, Exit) {
    if fs == [] then (0, Exit(c, false))
    else if fs[0].init.None? then RunInits(fs[1..], c)
    else
      var e := fs[0].init.value(c);
      if e.threw then (1, e) else (1 + RunInits(fs[1..], e.ctx).0, RunInits(fs[1..], e.ctx).1)
  }

  function RunBinds(fs: seq<Filter>, c: Contexts): (nat, Exit) {
    if fs == [] then (0, Exit(c, false))
    else if fs[0].bind.None? then RunBinds(fs[1..], c)
    else
      var e := fs[0].bind.value(c);
      if e.threw then (1, e) else (1 + RunBinds(fs[1..], e.ctx).0, RunBinds(fs[1..], e.ctx).1)
  }

  lemma {:induction false} InitStage(fs: seq<Filter>, c: Contexts)
    ensures StageEvents(Initialization, StageHooks(Initialization, fs)) == InitEvents(fs)
    ensures RunStage(StageHooks(Initialization, fs), c) == RunInits(fs, c)
  {
    if fs != [] {
      var hs, rest := StageHooks(Initialization, fs), StageHooks(Initialization, fs[1..]);
      if fs[0].init.Some? {
        assert hs[1..] == rest;
        StageEventsHead(Initialization, hs, 0);
        InitStage(fs[1..], fs[0].init.value(c).ctx);
      } else {
        assert hs == rest;
        InitStage(fs[1..], c);
      }
    }
  }

  lemma {:induction false} BindStage(fs: seq<Filter>, c: Contexts)
    ensures StageEvents(Binding, StageHooks(Binding, fs)) == BindEvents(fs)
    ensures RunStage(StageHooks(Binding, fs), c) == RunBinds(fs, c)
  {
    if fs != [] {
      var hs, rest := StageHooks(Binding, fs), StageHooks(Binding, fs[1..]);
      if fs[0].bind.Some? {
        assert hs[1..] == rest;
        StageEventsHead(Binding, hs, 0);
        BindStage(fs[1..], fs[0].bind.value(c).ctx);
      } else {
        assert hs == rest;
        BindStage(fs[1..], c);
      }
    }
  }

  /** A whole request: the initialization hooks of the filters that have one, in list order, then
      their binding hooks, then the action stage; an exception of a hook ends the run there. */
  lemma StagesInOrder(fs: seq<Filter>, action: Action, c: Contexts)
    ensures var (n, afterInit) := RunInits(fs, c);
            var (m, afterBind) := RunBinds(fs, afterInit.ctx);
            var inner := Run(NestActions(fs), action, afterBind.ctx);
            && n <= |InitEvents(fs)| && m <= |BindEvents(fs)|
            && Run(Pipeline(fs), action, c) ==
               if afterInit.threw then Outcome(InitEvents(fs)[..n], afterInit)
               else if afterBind.threw then Outcome(InitEvents(fs) + BindEvents(fs)[..m], afterBind)
               else Outcome(InitEvents(fs) + (BindEvents(fs) + inner.trace), inner.exit)
  {
    StagesByHooks(fs, action, c);
    InitStage(fs, c);
    BindStage(fs, RunInits(fs, c).1.ctx);
  }

  /** `t` is a prefix of `hooks`, or all of `hooks` and then a well-nested action stage. */
  ghost predicate Bracketed(hooks: seq<Event>, ids: seq<nat>, t: seq<Event>, threw: bool) {
    || (threw && t <= hooks)
    || (hooks <= t && Nested(ids, t[|hooks|..], 0))
  }

  /** The three ways in which a run can go through hook events `a`, then `b`, then the action stage. */
  lemma BracketedCases(a: seq<Event>, b: seq<Event>, n: nat, ids: seq<nat>, inner: seq<Event>, t: seq<Event>, threw: bool)
    requires (threw && n <= |a| && t == a[..n]) || (threw && n <= |b| && t == a + b[..n])
             || (Nested(ids, inner, 0) && t == a + (b + inner))
    ensures Bracketed(a + b, ids, t, threw)
  {
    if threw && n <= |a| && t == a[..n] {
      assert (a + b)[..n] == t;
    } else if threw && n <= |b| && t == a + b[..n] {
      assert (a + b)[..|a| + n] == t;
    } else {
      assert t == (a + b) + inner;
      assert t[|a + b|..] == inner;
    }
  }

  /** For every filter list, every behaviour of the filters (any number of calls of `next`,
      exceptions included) and every action: the trace is a prefix of the initializations and then
      the bindings in filter order, and only after all of them a well-nested action stage. */
  lemma WellBracketed(fs: seq<Filter>, action: Action, c: Contexts)
    ensures Bracketed(InitEvents(fs) + BindEvents(fs), ActionIds(fs),
                      Run(Pipeline(fs), action, c).trace, Run(Pipeline(fs), action, c).exit.threw)
  {
    StagesInOrder(fs, action, c);
    var (n, afterInit) := RunInits(fs, c);
    var (m, afterBind) := RunBinds(fs, afterInit.ctx);
    var run := Run(Pipeline(fs), action, c);
    var inner := Run(NestActions(fs), action, afterBind.ctx).trace;
    RunNested(fs, [], action, afterBind.ctx);
    assert [] + ActionIds(fs) == ActionIds(fs);
    BracketedCases(InitEvents(fs), BindEvents(fs), if afterInit.threw then n else m, ActionIds(fs), inner,
                   run.trace, run.exit.threw);
  }
}

/** Laws of the pipeline for filters that call `next` once: short-circuiting, the equality of the
    sync and the async link, and the order in which the filters of a request are arranged. */
module FilterLaws {
  import opened Basics
  import opened FilterPipeline

  /** A non-throwing filter that calls `next` once. An async one may carry local state across the
      call: what it does after `next` is a function of the contexts on entry, too. */
  datatype Template =
    | SyncFilter(id: nat, before: Contexts -> Contexts, onExecuted: Contexts -> Contexts)
    | AsyncFilter(id: nat, before: Contexts -> Contexts, afterNext: (Contexts, Contexts) -> Contexts)
  {
    function After(entry: Contexts, c: Contexts): Contexts {
      if SyncFilter? then onExecuted(c) else afterNext(entry, c)
    }
  }

  function Quiet(h: Contexts -> Contexts): Hook {
    (c: Contexts) => Exit(h(c), false)
  }

  /** An async body that calls `next` once, between `before` and `after`. */
  function OnceBody(before: Contexts -> Contexts, after: (Contexts, Contexts) -> Contexts): Body {
    Body(1, (seen: seq<Exit>) =>
      if |seen| == 0 then Leave(Exit(FRESH, false))
      else if |seen| == 1 then CallNext(before(seen[0].ctx))
      else if seen[|seen| - 1].threw then Leave(seen[|seen| - 1])
      else Leave(Exit(after(seen[0].ctx, seen[|seen| - 1].ctx), false)))
  }

  function AsFilter(t: Template): Filter {
    match t
    case SyncFilter(id, before, onExecuted) =>
      Filter(id, 0, 0, None, None, Some((Quiet(before), Quiet(onExecuted))), None)
    case AsyncFilter(id, before, afterNext) =>
      Filter(id, 0, 0, None, None, None, Some(OnceBody(before, afterNext)))
  }

  function AsFilters(ts: seq<Template>): seq<Filter> {
    if ts == [] then [] else [AsFilter(ts[0])] + AsFilters(ts[1..])
  }

  /** The sync link and the async link around the template body are the same link, exceptions of
      the hooks and of `next` included. */
  lemma SyncLinkIsAsyncLink(onExecuting: Hook, onExecuted: Hook, next: Chain, action: Action, c: Contexts)
    ensures RunHooks(SyncHooks(onExecuting, onExecuted), next, action, c) ==
            RunHooks(AsyncHooks(TemplateBody(onExecuting, onExecuted)), next, action, c)
  {
    var body := TemplateBody(onExecuting, onExecuted);
    var entry := [Exit(c, false)];
    var e := onExecuting(c);
    if !e.threw {
      var r := RunNext(next, action, e.ctx);
      var seen := entry + [r.exit];
      assert body.react(entry) == CallNext(e.ctx);
      assert body.react(seen) == Leave(if r.exit.threw then r.exit else onExecuted(r.exit.ctx));
      assert RunBody(body, seen, next, action).trace == [];
      assert r.trace + [] == r.trace;
    }
  }

  /** Runs the `before` hooks inwards until one of them sets Result or Exception: the index of that
      filter (or the number of filters) and the contexts it leaves. */
  function Descend(ts: seq<Template>, c: Contexts): (r: (nat, Contexts))
    ensures r.0 <= |ts|
    ensures r.0 < |ts| ==> ShortCircuited(r.1)
  {
    if ts == [] then (0, c)
    else
      var c1 := ts[0].before(c);
      if ShortCircuited(c1) then (0, c1)
      else var (i, c2) := Descend(ts[1..], c1); (i + 1, c2)
  }

  /** What filter `j` is entered with, when no filter before it short-circuits. */
  function EnteredWith(ts: seq<Template>, c: Contexts, j: nat): Contexts
    requires j <= |ts|
  {
    if j == 0 then c else EnteredWith(ts[1..], ts[0].before(c), j - 1)
  }

  /** The descent stops at the first filter that leaves a Result or an Exception on the executing
      context, or goes through all of them. */
  lemma {:induction false} DescendIsFirst(ts: seq<Template>, c: Contexts)
    ensures var (i, inside) := Descend(ts, c);
            && (forall j :: 0 < j <= i ==>
                  var x := EnteredWith(ts, c, j).executing; x.result.None? && x.exception.None?)
            && (i < |ts| ==> inside.executing.result.Some? || inside.executing.exception.Some?)
            && inside == EnteredWith(ts, c, if i < |ts| then i + 1 else i)
  {
    if ts != [] {
      var c1 := ts[0].before(c);
      assert EnteredWith(ts, c, 1) == c1;
      if c1.executing.result.None? && c1.executing.exception.None? {
        DescendIsFirst(ts[1..], c1);
        var i := Descend(ts[1..], c1).0;
        forall j | 0 < j <= i + 1
          ensures EnteredWith(ts, c, j).executing.result.None? && EnteredWith(ts, c, j).executing.exception.None? {
          assert EnteredWith(ts, c, j) == EnteredWith(ts[1..], c1, j - 1);
        }
      }
    }
  }

  /** Runs what the filters do after `next`, innermost first; `c` is what the outermost was entered
      with, and `inner` what comes back from inside all of them. */
  function Ascend(ts: seq<Template>, c: Contexts, inner: Contexts): Contexts {
    if ts == [] then inner else ts[0].After(c, Ascend(ts[1..], ts[0].before(c), inner))
  }

  function EnterAll(ts: seq<Template>): seq<Event> {
    seq(|ts|, i requires 0 <= i < |ts| => Entered(ts[i].id))
  }

  function LeaveAll(ts: seq<Template>): seq<Event> {
    seq(|ts|, i requires 0 <= i < |ts| => Left(ts[|ts| - 1 - i].id, false))
  }

  /** The filters `ts`, entered in order from `c` and left in reverse, around `inner`. */
  function Surround(ts: seq<Template>, c: Contexts, inner: Outcome): Outcome {
    Outcome(EnterAll(ts) + inner.trace + LeaveAll(ts), Exit(Ascend(ts, c, inner.exit.ctx), false))
  }

  lemma SurroundOne(t: Template, c: Contexts, inner: Outcome)
    ensures Surround([t], c, inner) ==
            Outcome([Entered(t.id)] + inner.trace + [Left(t.id, false)], Exit(t.After(c, inner.exit.ctx), false))
  {
    assert EnterAll([t]) == [Entered(t.id)] && LeaveAll([t]) == [Left(t.id, false)];
    assert [t][1..] == [];
    assert Ascend([t], c, inner.exit.ctx) == t.After(c, Ascend([t][1..], t.before(c), inner.exit.ctx));
  }

  lemma SurroundOneMore(t: Template, ts: seq<Template>, c: Contexts, inner: Outcome)
    ensures Surround([t] + ts, c, inner) == Surround([t], c, Surround(ts, t.before(c), inner))
  {
    var around := Surround(ts, t.before(c), inner);
    SurroundOne(t, c, around);
    assert EnterAll([t] + ts) == [Entered(t.id)] + EnterAll(ts);
    assert LeaveAll([t] + ts) == LeaveAll(ts) + [Left(t.id, false)];
    assert ([t] + ts)[1..] == ts;
    assert ([Entered(t.id)] + EnterAll(ts)) + inner.trace + (LeaveAll(ts) + [Left(t.id, false)]) ==
           [Entered(t.id)] + around.trace + [Left(t.id, false)];
  }

  lemma OnceBodyRuns(before: Contexts -> Contexts, after: (Contexts, Contexts) -> Contexts, next: Chain, action: Action, c: Contexts)
    ensures var r := RunNext(next, action, before(c));
            !r.exit.threw ==>
              RunHooks(AsyncHooks(OnceBody(before, after)), next, action, c) ==
              Outcome(r.trace, Exit(after(c, r.exit.ctx), false))
  {
    var body, r := OnceBody(before, after), RunNext(next, action, before(c));
    var entry := [Exit(c, false)];
    var seen := entry + [r.exit];
    assert body.react(entry) == CallNext(before(c));
    if !r.exit.threw {
      assert body.react(seen) == Leave(Exit(after(c, r.exit.ctx), false));
      assert RunBody(body, seen, next, action).trace == [];
      assert r.trace + [] == r.trace;
    }
  }

  /** One template filter around any rest of the chain that returns. */
  lemma AroundNext(t: Template, fs: seq<Filter>, action: Action, c: Contexts)
    requires !RunNext(NestActions(fs), action, t.before(c)).exit.threw
    ensures Run(NestActions([AsFilter(t)] + fs), action, c) ==
            Surround([t], c, RunNext(NestActions(fs), action, t.before(c)))
  {
    var f, next := AsFilter(t), NestActions(fs);
    assert ([f] + fs)[1..] == fs;
    assert NestActions([f] + fs) == ActionLink(t.id, HooksOf(f), next);
    var r := RunNext(next, action, t.before(c));
    if t.AsyncFilter? {
      OnceBodyRuns(t.before, t.afterNext, next, action, c);
    }
    assert RunHooks(HooksOf(f), next, action, c) == Outcome(r.trace, Exit(t.After(c, r.exit.ctx), false));
    SurroundOne(t, c, r);
  }

  /** If filter `i` is the first to set Result or Exception, exactly the filters 0..i are entered,
      the action does not run, and what the filters do after `next` runs for i..0 on canceled
      contexts that carry what that filter set. If no filter does, every filter surrounds the action. */
  lemma {:induction false} ShortCircuit(ts: seq<Template>, action: Action, c: Contexts)
    ensures var (i, inside) := Descend(ts, c);
            Run(NestActions(AsFilters(ts)), action, c) ==
            if i < |ts| then Surround(ts[..i + 1], c, Outcome([], Exit(Cancel(inside), false)))
            else Surround(ts, c, Invoke(action, inside))
  {
    if ts == [] {
      var inner := Invoke(action, c).trace;
      assert EnterAll(ts) + inner + LeaveAll(ts) == inner;
    } else {
      var t, rest, c1 := ts[0], ts[1..], ts[0].before(c);
      if ShortCircuited(c1) {
        AroundNext(t, AsFilters(rest), action, c);
        assert ts[..1] == [t];
      } else {
        ShortCircuit(rest, action, c1);
        AroundNext(t, AsFilters(rest), action, c);
        var (i, inside) := Descend(rest, c1);
        if i < |rest| {
          assert ts[..i + 2] == [t] + rest[..i + 1];
          SurroundOneMore(t, rest[..i + 1], c, Outcome([], Exit(Cancel(inside), false)));
        } else {
          assert ts == [t] + rest;
          SurroundOneMore(t, rest, c, Invoke(action, inside));
        }
      }
    }
  }

  /** With filters that leave `Canceled` alone after `next`, a short-circuited request ends canceled. */
  lemma {:induction false} CanceledAtTheEnd(ts: seq<Template>, action: Action, c: Contexts)
    requires Descend(ts, c).0 < |ts|
    requires forall t, e, d :: t in ts ==> t.After(e, d).executed.canceled == d.executed.canceled
    ensures var r := Run(NestActions(AsFilters(ts)), action, c);
            r.exit.ctx.executed.canceled && Invoked !in r.trace
  {
    var (i, inside) := Descend(ts, c);
    ShortCircuit(ts, action, c);
    AscendKeepsCanceled(ts[..i + 1], c, Cancel(inside));
  }

  /** With filters that leave the executed context alone after `next`, a short-circuited request ends
      canceled, with the very Result and Exception that the first short-circuiting filter set, and
      otherwise as that filter left it. */
  lemma EndsWithWhatWasSet(ts: seq<Template>, action: Action, c: Contexts)
    requires Descend(ts, c).0 < |ts|
    requires forall t, e, d :: t in ts ==> t.After(e, d).executed == d.executed
    ensures var left := EnteredWith(ts, c, Descend(ts, c).0 + 1);
            Run(NestActions(AsFilters(ts)), action, c).exit.ctx.executed ==
            left.executed.(canceled := true, result := left.executing.result, exception := left.executing.exception)
  {
    var (i, inside) := Descend(ts, c);
    ShortCircuit(ts, action, c);
    DescendIsFirst(ts, c);
    AscendKeepsExecuted(ts[..i + 1], c, Cancel(inside));
  }

  lemma {:induction false} AscendKeepsExecuted(ts: seq<Template>, c: Contexts, inner: Contexts)
    requires forall t, e, d :: t in ts ==> t.After(e, d).executed == d.executed
    ensures Ascend(ts, c, inner).executed == inner.executed
  {
    if ts != [] {
      assert ts[0] in ts;
      AscendKeepsExecuted(ts[1..], ts[0].before(c), inner);
    }
  }

  lemma {:induction false} AscendKeepsCanceled(ts: seq<Template>, c: Contexts, inner: Contexts)
    requires forall t, e, d :: t in ts ==> t.After(e, d).executed.canceled == d.executed.canceled
    ensures Ascend(ts, c, inner).executed.canceled == inner.executed.canceled
  {
    if ts != [] {
      assert ts[0] in ts;
      AscendKeepsCanceled(ts[1..], ts[0].before(c), inner);
    }
  }

  // ---- Calling `next` repeatedly ----

  /** An async body that calls `next` exactly `k` times, each time with the contexts of its entry. */
  function RepeatBody(k: nat): Body {
    Body(k, (seen: seq<Exit>) =>
      if |seen| == 0 then Leave(Exit(FRESH, false))
      else if |seen| <= k then CallNext(seen[0].ctx)
      else Leave(seen[|seen| - 1]))
  }

  function Invocations(t: seq<Event>): nat {
    if t == [] then 0 else (if t[0] == Invoked then 1 else 0) + Invocations(t[1..])
  }

  lemma {:induction false} InvocationsAdd(a: seq<Event>, b: seq<Event>)
    ensures Invocations(a + b) == Invocations(a) + Invocations(b)
  {
    if a == [] {
      assert a + b == b;
    } else {
      assert (a + b)[1..] == a[1..] + b;
      InvocationsAdd(a[1..], b);
    }
  }

  /** Each further call of `next` runs the action once more. */
  lemma {:induction false} EveryCallInvokes(k: nat, seen: seq<Exit>, action: Action)
    requires 1 <= |seen| <= k + 1 && !ShortCircuited(seen[0].ctx) && !seen[0].ctx.executed.canceled
    ensures Invocations(RunBody(RepeatBody(k), seen, Termination, action).trace) == k + 1 - |seen|
    decreases k + 1 - |seen|
  {
    var body, c := RepeatBody(k), seen[0].ctx;
    if |seen| <= k {
      assert body.react(seen) == CallNext(c);
      var r := RunNext(Termination, action, c);
      assert r.trace == [Invoked] && [Invoked][1..] == [];
      EveryCallInvokes(k, seen + [r.exit], action);
      InvocationsAdd(r.trace, RunBody(body, seen + [r.exit], Termination, action).trace);
    } else {
      assert body.react(seen) == Leave(seen[|seen| - 1]);
    }
  }

  // ---- Arranging the filters of a request ----

  predicate Before(a: Filter, b: Filter) {
    a.order < b.order || (a.order == b.order && a.scope < b.scope)
  }

  function Insert(f: Filter, fs: seq<Filter>): seq<Filter> {
    if fs != [] && Before(fs[0], f) then [fs[0]] + Insert(f, fs[1..]) else [f] + fs
  }

  /** `OrderBy(Order).ThenBy(Scope)`, which LINQ documents as stable. */
  function Arrange(fs: seq<Filter>): seq<Filter> {
    if fs == [] then [] else Insert(fs[0], Arrange(fs[1..]))
  }

  /** The list that the chain is built from; a `RabbitService` instance goes first. */
  function RequestFilters(action: seq<Filter>, service: seq<Filter>, global: seq<Filter>, instance: Option<Filter>): seq<Filter> {
    (if instance.Some? then [instance.value] else []) + Arrange(action + service + global)
  }

  predicate Arranged(fs: seq<Filter>) {
    forall i, j :: 0 <= i < j < |fs| ==> !Before(fs[j], fs[i])
  }

  /** By order, and by scope where the orders are equal. */
  predicate Ascending(fs: seq<Filter>) {
    forall i, j :: 0 <= i < j < |fs| ==>
      fs[i].order < fs[j].order || (fs[i].order == fs[j].order && fs[i].scope <= fs[j].scope)
  }

  /** The filters with the order and scope of `like`, in list order. */
  ghost function Alike(fs: seq<Filter>, like: Filter): seq<Filter> {
    if fs == [] then []
    else (if fs[0].order == like.order && fs[0].scope == like.scope then [fs[0]] else []) + Alike(fs[1..], like)
  }

  lemma {:induction false} InsertMembers(f: Filter, fs: seq<Filter>)
    ensures forall g :: g in Insert(f, fs) <==> g == f || g in fs
  {
    if fs != [] && Before(fs[0], f) { InsertMembers(f, fs[1..]); }
  }

  lemma {:induction false} InsertArranged(f: Filter, fs: seq<Filter>)
    requires Arranged(fs)
    ensures Arranged(Insert(f, fs))
  {
    if fs != [] && Before(fs[0], f) {
      InsertArranged(f, fs[1..]);
      InsertMembers(f, fs[1..]);
      var tail := Insert(f, fs[1..]);
      forall j | 0 <= j < |tail| ensures !Before(tail[j], fs[0]) {
        assert tail[j] in tail;
      }
    } else if fs != [] {
      forall j | 0 <= j < |fs| ensures !Before(fs[j], f) {
        if j > 0 { assert !Before(fs[j], fs[0]); }
      }
    }
  }

  lemma {:induction false} InsertAlike(f: Filter, fs: seq<Filter>, like: Filter)
    ensures Alike(Insert(f, fs), like) ==
            (if f.order == like.order && f.scope == like.scope then [f] else []) + Alike(fs, like)
  {
    if fs != [] && Before(fs[0], f) {
      InsertAlike(f, fs[1..], like);
    } else {
      assert ([f] + fs)[1..] == fs;
    }
  }

  /** The arrangement ascends by order and then by scope, and filters of equal order and scope keep
      their relative order; together these determine it. */
  lemma {:induction false} ArrangeIsStableSort(fs: seq<Filter>, like: Filter)
    ensures Arranged(Arrange(fs))
    ensures Ascending(Arrange(fs))
    ensures Alike(Arrange(fs), like) == Alike(fs, like)
  {
    if fs != [] {
      ArrangeIsStableSort(fs[1..], like);
      InsertArranged(fs[0], Arrange(fs[1..]));
      InsertAlike(fs[0], Arrange(fs[1..]), like);
    }
  }

  lemma {:induction false} AlikeConcat(a: seq<Filter>, b: seq<Filter>, like: Filter)
    ensures Alike(a + b, like) == Alike(a, like) + Alike(b, like)
  {
    if a == [] {
      assert a + b == b;
    } else {
      assert (a + b)[1..] == a[1..] + b;
      AlikeConcat(a[1..], b, like);
    }
  }

  /** The filters of a request: the service instance, if it is a filter, before all others; the others
      by order and then scope; and among those with the order and scope of `like` the filters of the
      action before those of the service, and these before the global ones. */
  lemma RequestOrder(action: seq<Filter>, service: seq<Filter>, global: seq<Filter>, instance: Option<Filter>, like: Filter)
      returns (others: seq<Filter>)
    ensures RequestFilters(action, service, global, instance) ==
            (if instance.Some? then [instance.value] else []) + others
    ensures Ascending(others)
    ensures Alike(others, like) == Alike(action, like) + Alike(service, like) + Alike(global, like)
  {
    others := Arrange(action + service + global);
    ArrangeIsStableSort(action + service + global, like);
    AlikeConcat(action + service, global, like);
    AlikeConcat(action, service, like);
  }
}

/** How requests of the optimistic protocol come about and how they end: each arrival is one request,
    a conflict is retried, and only an abort, a throwing action or exhausted retries keep a request
    from its value. */
module Outcomes {
  import opened Basics
  import opened StateTable
  import opened FilterPipeline
  import opened Retry
  import opened ServiceHost
  import opened Optimistic
  import opened Linearizability

  // ---- Arrivals ----

  function Arrivals(steps: seq<Step>): seq<(Kind, Settings)> {
    if steps == [] then []
    else (if steps[0].Arrive? then [(steps[0].kind, steps[0].settings)] else []) + Arrivals(steps[1..])
  }

  /** The requests of a run are its arrivals, in order, each with what it asks for. */
  lemma {:induction false} RequestsAreArrivals(cfg: Config, w: World, steps: seq<Step>)
    ensures var requests, first, arrived := RunFrom(cfg, w, steps).requests, |w.requests|, Arrivals(steps);
            && |requests| == first + |arrived|
            && forall i :: 0 <= i < |arrived| ==>
                 requests[first + i].kind == arrived[i].0 && requests[first + i].settings == arrived[i].1
    decreases |steps|
  {
    if steps != [] {
      var w1 := Next(cfg, w, steps[0]);
      RequestsAreArrivals(cfg, w1, steps[1..]);
      if steps[0].Arrive? {
        RunExtends(cfg, w1, steps[1..]);
        var requests, arrived, rest := RunFrom(cfg, w, steps).requests, Arrivals(steps), Arrivals(steps[1..]);
        forall i | 0 <= i < |arrived|
          ensures requests[|w.requests| + i].kind == arrived[i].0 && requests[|w.requests| + i].settings == arrived[i].1 {
          if i > 0 {
            assert arrived[i] == rest[i - 1] && |w1.requests| + (i - 1) == |w.requests| + i;
          }
        }
      }
    }
  }

  /** Statements on other keys act on their rows as in the database, and the protocol leaves those alone. */
  lemma OtherRows(cfg: Config, w: World, step: Step, k: string)
    requires Inv(cfg, w) && k != cfg.key
    ensures var (row, row') := (Lookup(w.table, k), Lookup(Next(cfg, w, step).table, k));
            row' == if step.Foreign? && step.s.key == k then NewRow(row, step.s) else row
  {
    if step.Foreign? {
      StatementMeaning(cfg.dialect, w.table, step.s, k);
    } else if step.PutRow? && Enabled(cfg, w, step) {
      var r := w.requests[step.i];
      var put := AddOrUpdate(cfg.key, CommitOf(r, step.i).after, Some(r.phase.state.version));
      StatementMeaning(cfg.dialect, w.table, put, k);
    }
  }

  // ---- Waiting and re-execution ----

  /** How a wait ends: a conflict is retried, with the next execution number, when the wait is over and
      nobody has aborted the request; an aborted one is canceled; a wait that is cut short, or that
      throws because its delay is below -1, makes the host nack. */
  lemma WaitsEnd(cfg: Config, steps: seq<Step>, i: nat, cutShort: bool)
    requires UniqueKeys(cfg.table) && Enabled(cfg, After(cfg, steps), Elapse(i, cutShort))
    ensures var w := After(cfg, steps);
            var r, r' := w.requests[i], Next(cfg, w, Elapse(i, cutShort)).requests[i];
            var delay := BackoffTime(r.settings, r.execution, r.phase.jitter);
            && (!cutShort && delay >= 0 && !r.aborted ==> r' == r.(execution := r.execution + 1, phase := Ready))
            && (!cutShort && delay >= 0 && r.aborted ==> r' == r.(phase := Done(Reply(Canceled), None)))
            && (cutShort || delay < -1 ==> r' == r.(phase := Done(Fail, None)))
  {
    AfterOk(cfg, steps);
    var w := After(cfg, steps);
    assert RequestOk(cfg, w.log, w.requests[i], i);
  }

  /** Every wait of a request with these settings has a delay that is over at some time. */
  ghost predicate SettingsFit(s: Settings) {
    NonNegative(s) && forall n: nat :: n <= s.maximumRetries ==> Fits(s, n)
  }

  /** The wait after the execution that request `r` is in can throw by itself. */
  ghost predicate DelayCanThrow(r: Request) {
    r.execution <= r.settings.maximumRetries && exists jitter :: IsJitter(r.settings, jitter)
                                                                 && BackoffTime(r.settings, r.execution, jitter) < -1
  }

  /** A nack has an abort or a throwing delay behind it, and a canceled reply an abort. */
  ghost predicate EndOk(r: Request) {
    r.phase.Done? ==>
      && (r.phase.verdict == Fail ==> r.aborted || DelayCanThrow(r))
      && (r.phase.verdict == Reply(Canceled) ==> r.aborted)
  }

  ghost predicate EndsOk(w: World) {
    forall i :: 0 <= i < |w.requests| ==> EndOk(w.requests[i])
  }

  lemma WaitEndOk(cfg: Config, w: World, i: nat, cutShort: bool)
    requires Inv(cfg, w) && EndsOk(w) && Enabled(cfg, w, Elapse(i, cutShort))
    ensures EndOk(Next(cfg, w, Elapse(i, cutShort)).requests[i])
  {
    var r := w.requests[i];
    assert RequestOk(cfg, w.log, r, i);
    if Delay(r) < -1 {
      assert IsJitter(r.settings, r.phase.jitter) && BackoffTime(r.settings, r.execution, r.phase.jitter) < -1;
    }
  }

  lemma NextEndsOk(cfg: Config, w: World, step: Step)
    requires Inv(cfg, w) && EndsOk(w)
    ensures EndsOk(Next(cfg, w, step))
  {
    var w' := Next(cfg, w, step);
    forall i | 0 <= i < |w'.requests| ensures EndOk(w'.requests[i]) {
      if i < |w.requests| && w'.requests[i] != w.requests[i] {
        assert EndOk(w.requests[i]);
        if step.Elapse? {
          WaitEndOk(cfg, w, i, step.cutShort);
        }
      } else if i < |w.requests| {
        assert EndOk(w.requests[i]);
      }
    }
  }

  lemma {:induction false} RunEndsOk(cfg: Config, w: World, steps: seq<Step>)
    requires Inv(cfg, w) && EndsOk(w)
    ensures EndsOk(RunFrom(cfg, w, steps))
    decreases |steps|
  {
    if steps != [] {
      NextKeeps(cfg, w, steps[0]);
      NextEndsOk(cfg, w, steps[0]);
      RunEndsOk(cfg, Next(cfg, w, steps[0]), steps[1..]);
    }
  }

  // ---- Errors ----

  predicate EndsWith(r: Request, e: Exn) {
    r.phase.Done? && r.phase.verdict == Reply(Error(e))
  }

  lemma ErrorOfStep(cfg: Config, w: World, step: Step, i: nat, e: Exn)
    requires i < |Next(cfg, w, step).requests| && EndsWith(Next(cfg, w, step).requests[i], e)
    requires e != ConcurrencyException && (i < |w.requests| ==> !w.requests[i].phase.Done?)
    ensures step == ActionThrows(i, e)
  {
  }

  /** Any other error than the concurrency error was thrown by the action itself. */
  lemma {:induction false} ErrorHasCause(cfg: Config, w: World, steps: seq<Step>, i: nat, e: Exn)
    requires i < |RunFrom(cfg, w, steps).requests| && EndsWith(RunFrom(cfg, w, steps).requests[i], e)
    requires e != ConcurrencyException && (i < |w.requests| ==> !w.requests[i].phase.Done?)
    ensures ActionThrows(i, e) in steps
    decreases |steps|
  {
    var w1 := Next(cfg, w, steps[0]);
    if i < |w1.requests| && w1.requests[i].phase.Done? {
      RunExtends(cfg, w1, steps[1..]);
      ErrorOfStep(cfg, w, steps[0], i, e);
    } else {
      ErrorHasCause(cfg, w1, steps[1..], i, e);
    }
  }

  /** How a finished request has ended, if nobody aborted it and its settings fit: with a value; with
      the concurrency error, after exactly MaximumRetries + 2 conflicts (one, when retries are off);
      or with the error that its action threw. It was not nacked, and not canceled. */
  lemma HowRequestsEnd(cfg: Config, steps: seq<Step>, i: nat)
    requires UniqueKeys(cfg.table) && i < |After(cfg, steps).requests|
    requires After(cfg, steps).requests[i].phase.Done? && !After(cfg, steps).requests[i].aborted
    requires SettingsFit(After(cfg, steps).requests[i].settings)
    ensures var r := After(cfg, steps).requests[i];
            && r.phase.verdict.Reply?
            && match r.phase.verdict.body
               case Value(v) => v.Some?
               case Error(ConcurrencyException) =>
                 |r.charges| == if r.settings.maximumRetries < 0 then 1 else r.settings.maximumRetries + 2
               case Error(e) => ActionThrows(i, e) in steps
               case _ => false
  {
    var w := After(cfg, steps);
    var r := w.requests[i];
    AfterOk(cfg, steps);
    StartOk(cfg);
    RunEndsOk(cfg, Start(cfg), steps);
    assert RequestOk(cfg, w.log, r, i) && EndOk(r);
    if DelayCanThrow(r) {
      var jitter :| IsJitter(r.settings, jitter) && BackoffTime(r.settings, r.execution, jitter) < -1;
      BackoffInRange(r.settings, r.execution, jitter);
    }
    if r.phase.verdict.Reply? && r.phase.verdict.body.Error? && r.phase.verdict.body.error != ConcurrencyException {
      ErrorHasCause(cfg, Start(cfg), steps, i, r.phase.verdict.body.error);
    }
  }

  // ---- Cancellation ----

  /** Aborted for good, and without a value or an error to reply. */
  predicate IsCanceled(r: Request) {
    r.aborted && (r.phase.Done? ==> r.phase.verdict == Reply(Canceled) || r.phase.verdict == Fail)
  }

  lemma {:induction false} StaysCanceled(cfg: Config, w: World, steps: seq<Step>, i: nat)
    requires i < |w.requests| && IsCanceled(w.requests[i])
    ensures i < |RunFrom(cfg, w, steps).requests| && IsCanceled(RunFrom(cfg, w, steps).requests[i])
    decreases |steps|
  {
    if steps != [] {
      StaysCanceled(cfg, Next(cfg, w, steps[0]), steps[1..], i);
    }
  }

  /** A request that is aborted before it has finished never replies a value or an error: it ends
      canceled, or with a nack. */
  lemma AbortCancels(cfg: Config, steps: seq<Step>, i: nat, later: seq<Step>)
    requires i < |After(cfg, steps).requests| && !After(cfg, steps).requests[i].phase.Done?
    ensures var w := RunFrom(cfg, Next(cfg, After(cfg, steps), Abort(i)), later);
            i < |w.requests| && IsCanceled(w.requests[i])
  {
    StaysCanceled(cfg, Next(cfg, After(cfg, steps), Abort(i)), later, i);
  }
}

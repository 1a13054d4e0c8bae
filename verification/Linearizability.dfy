/** The guarantees of the optimistic protocol over whole runs. */
module Linearizability {
  import opened Basics
  import opened StateTable
  import opened EFStates
  import opened FilterPipeline
  import opened Retry
  import opened ServiceHost
  import opened Optimistic

  function After(cfg: Config, steps: seq<Step>): World {
    RunFrom(cfg, Start(cfg), steps)
  }

  lemma AfterOk(cfg: Config, steps: seq<Step>)
    requires UniqueKeys(cfg.table)
    ensures Inv(cfg, After(cfg, steps))
  {
    StartOk(cfg);
    RunKeeps(cfg, Start(cfg), steps);
  }

  // ---- Linearizability ----

  /** How many of the first `n` puts are request `i`'s. */
  function PutsBy(log: seq<Commit>, i: nat, n: nat): nat
    requires n <= |log|
  {
    if n == 0 then 0 else PutsBy(log, i, n - 1) + (if log[n - 1].owner == i then 1 else 0)
  }

  /** What the reply of request `i` says about the object: a value reply is the value right after
      the request's own single put (or, for a query, a value the row had meanwhile); an error
      reply or a nack means no put; a canceled reply allows either; no reply, no put. */
  ghost predicate ReplyIsHonest(cfg: Config, w: World, i: nat)
    requires i < |w.requests|
  {
    var r, puts := w.requests[i], PutsBy(w.log, i, |w.log|);
    && puts <= 1
    && (!r.phase.Done? ==> puts == 0)
    && (r.phase.Done? ==>
          match r.phase.verdict
          case Reply(Value(v)) =>
            && r.phase.at.Some? && r.arrivedAt <= r.phase.at.value <= |w.log|
            && v == Some(ValueAt(cfg, w.log, r.phase.at.value))
            && (r.kind.Update? ==>
                  && puts == 1 && r.arrivedAt < r.phase.at.value
                  && w.log[r.phase.at.value - 1].owner == i && w.log[r.phase.at.value - 1].f == r.kind.f)
            && (r.kind.Query? ==> puts == 0)
          case Reply(Canceled) => true
          case Reply(Error(_)) => puts == 0
          case Fail => puts == 0
          case _ => false)
  }

  /** The history of the row is a fold of the committed functions, each applied to what the
      previous one stored. */
  ghost predicate IsFold(cfg: Config, log: seq<Commit>) {
    forall k :: 0 <= k < |log| ==> ValueAt(cfg, log, k + 1) == log[k].f(ValueAt(cfg, log, k))
  }

  lemma {:induction false} CountPuts(cfg: Config, w: World, i: nat, n: nat)
    requires Inv(cfg, w) && i < |w.requests| && n <= |w.log|
    ensures var r := w.requests[i];
            PutsBy(w.log, i, n) ==
            if r.phase.Done? && r.phase.at.Some? && r.kind.Update? && r.phase.at.value <= n then 1 else 0
  {
    var r := w.requests[i];
    assert RequestOk(cfg, w.log, r, i);
    if n > 0 {
      CountPuts(cfg, w, i, n - 1);
      assert CommitOk(cfg, w.log, w.requests, n - 1);
    }
  }

  lemma HonestReplies(cfg: Config, w: World, i: nat)
    requires Inv(cfg, w) && i < |w.requests|
    ensures ReplyIsHonest(cfg, w, i)
  {
    var r := w.requests[i];
    assert RequestOk(cfg, w.log, r, i);
    CountPuts(cfg, w, i, |w.log|);
    if r.phase.Done? && r.phase.at.Some? && r.kind.Update? {
      assert CommitOk(cfg, w.log, w.requests, r.phase.at.value - 1);
    }
  }

  /** The converse: put `k` of the log belongs to a request that asked for this very function and was
      answered with the value stored, or canceled. */
  ghost predicate PutIsAnswered(w: World, k: nat)
    requires k < |w.log|
  {
    var c := w.log[k];
    && c.owner < |w.requests|
    && w.requests[c.owner].kind == Update(c.f)
    && (w.requests[c.owner].phase == Done(Reply(Value(Some(c.after))), Some(k + 1))
        || w.requests[c.owner].phase == Done(Reply(Canceled), Some(k + 1)))
  }

  lemma PutsAreAnswered(cfg: Config, w: World, k: nat)
    requires Inv(cfg, w) && k < |w.log|
    ensures PutIsAnswered(w, k)
  {
    assert CommitOk(cfg, w.log, w.requests, k);
    assert RequestOk(cfg, w.log, w.requests[w.log[k].owner], w.log[k].owner);
  }

  lemma RowKeepsItsKey(cfg: Config)
    ensures Lookup(cfg.table, cfg.key).Some? ==> Lookup(cfg.table, cfg.key).value.key == cfg.key
  {
    LookupIsIndexOf(cfg.table, cfg.key);
  }

  /** Any interleaving of any number of requests over a row that exists and is not removed: the row
      is the fold of the committed functions over the initial value, in commit order, with one
      version per put; every reply is honest about it, and every put is answered for. */
  lemma Linearizable(cfg: Config, steps: seq<Step>)
    requires UniqueKeys(cfg.table) && Lookup(cfg.table, cfg.key).Some?
    ensures var w, initial := After(cfg, steps), Lookup(cfg.table, cfg.key).value;
            && IsFold(cfg, w.log)
            && ValueAt(cfg, w.log, 0) == initial.value
            && Lookup(w.table, cfg.key) ==
               Some(Entry(cfg.key, ValueAt(cfg, w.log, |w.log|), initial.version + |w.log|))
            && (forall i :: 0 <= i < |w.requests| ==> ReplyIsHonest(cfg, w, i))
            && (forall k :: 0 <= k < |w.log| ==> PutIsAnswered(w, k))
  {
    var w := After(cfg, steps);
    AfterOk(cfg, steps);
    RowKeepsItsKey(cfg);
    forall k | 0 <= k < |w.log| ensures PutIsAnswered(w, k) {
      PutsAreAnswered(cfg, w, k);
    }
    forall k | 0 <= k < |w.log| ensures ValueAt(cfg, w.log, k + 1) == w.log[k].f(ValueAt(cfg, w.log, k)) {
      assert CommitOk(cfg, w.log, w.requests, k);
    }
    forall i | 0 <= i < |w.requests| ensures ReplyIsHonest(cfg, w, i) {
      HonestReplies(cfg, w, i);
    }
  }

  // ---- Real-time order ----

  /** What a run leaves alone: the log only grows, and a finished request stays as it finished. */
  ghost predicate Extends(w: World, w': World) {
    && |w.log| <= |w'.log| && w'.log[..|w.log|] == w.log
    && |w.requests| <= |w'.requests|
    && (forall i :: 0 <= i < |w.requests| ==>
          && w'.requests[i].arrivedAt == w.requests[i].arrivedAt
          && w'.requests[i].kind == w.requests[i].kind && w'.requests[i].settings == w.requests[i].settings
          && (w.requests[i].phase.Done? ==> w'.requests[i].phase == w.requests[i].phase))
    && (forall i :: |w.requests| <= i < |w'.requests| ==> w'.requests[i].arrivedAt >= |w.log|)
  }

  lemma NextExtends(cfg: Config, w: World, step: Step)
    ensures Extends(w, Next(cfg, w, step))
  {
  }

  lemma {:induction false} RunExtends(cfg: Config, w: World, steps: seq<Step>)
    ensures Extends(w, RunFrom(cfg, w, steps))
    decreases |steps|
  {
    if steps != [] {
      var w1 := Next(cfg, w, steps[0]);
      NextExtends(cfg, w, steps[0]);
      RunExtends(cfg, w1, steps[1..]);
      var w2 := RunFrom(cfg, w1, steps[1..]);
      assert w2.log[..|w.log|] == w2.log[..|w1.log|][..|w.log|];
    }
  }

  lemma {:induction false} RunSplits(cfg: Config, w: World, a: seq<Step>, b: seq<Step>)
    ensures RunFrom(cfg, w, a + b) == RunFrom(cfg, RunFrom(cfg, w, a), b)
    decreases |a|
  {
    if a == [] {
      assert a + b == b;
    } else {
      assert (a + b)[1..] == a[1..] + b;
      RunSplits(cfg, Next(cfg, w, a[0]), a[1..], b);
    }
  }

  /** The commit order respects real time: if `x` has finished before `y` arrives, `x` takes
      effect no later than `y`, and strictly earlier in the log when `y` puts. */
  lemma RealTimeOrder(cfg: Config, first: seq<Step>, later: seq<Step>, x: nat, y: nat)
    requires UniqueKeys(cfg.table)
    requires var w1 := After(cfg, first);
             x < |w1.requests| && w1.requests[x].phase.Done? && w1.requests[x].phase.at.Some?
    requires var w2 := After(cfg, first + later);
             && |After(cfg, first).requests| <= y < |w2.requests|
             && w2.requests[y].phase.Done? && w2.requests[y].phase.at.Some?
    ensures var w2 := After(cfg, first + later);
            && w2.requests[x].phase == After(cfg, first).requests[x].phase
            && w2.requests[x].phase.at.value <= w2.requests[y].phase.at.value
            && (w2.requests[y].kind.Update? ==> w2.requests[x].phase.at.value < w2.requests[y].phase.at.value)
  {
    var w1 := After(cfg, first);
    RunSplits(cfg, Start(cfg), first, later);
    RunExtends(cfg, w1, later);
    var w2 := After(cfg, first + later);
    AfterOk(cfg, first);
    AfterOk(cfg, first + later);
    assert RequestOk(cfg, w1.log, w1.requests[x], x);
    assert RequestOk(cfg, w2.log, w2.requests[y], y);
  }

  // ---- Contention bound ----

  /** How many puts with index in `from..upTo` belong to requests other than `i`. */
  function PutsByOthers(log: seq<Commit>, i: nat, from: nat, upTo: nat): nat
    requires upTo <= |log|
  {
    if upTo <= from then 0
    else PutsByOthers(log, i, from, upTo - 1) + (if log[upTo - 1].owner != i then 1 else 0)
  }

  /** Distinct charged puts of others are at most all puts of others. */
  lemma {:induction false} ChargesAreFew(log: seq<Commit>, charges: seq<nat>, i: nat, from: nat, upTo: nat)
    requires upTo <= |log|
    requires forall j :: 0 <= j < |charges| ==> from <= charges[j] < upTo && log[charges[j]].owner != i
    requires forall j, l :: 0 <= j < l < |charges| ==> charges[j] < charges[l]
    ensures |charges| <= PutsByOthers(log, i, from, upTo)
    decreases upTo
  {
    if charges != [] {
      var last := charges[|charges| - 1];
      if last == upTo - 1 {
        ChargesAreFew(log, charges[..|charges| - 1], i, from, upTo - 1);
      } else {
        ChargesAreFew(log, charges, i, from, upTo - 1);
      }
    }
  }

  lemma OvertakenByCharges(cfg: Config, w: World, i: nat)
    requires Inv(cfg, w) && i < |w.requests|
    ensures var r := w.requests[i];
            && r.arrivedAt <= |w.log| && |r.charges| <= PutsByOthers(w.log, i, r.arrivedAt, |w.log|)
            && (r.phase.Done? && r.phase.verdict == Reply(Error(ConcurrencyException)) ==>
                  |r.charges| == MaximumExecutions(r.settings))
  {
    var r := w.requests[i];
    assert RequestOk(cfg, w.log, r, i);
    ChargesAreFew(w.log, r.charges, i, r.arrivedAt, |w.log|);
  }

  /** At every moment a request has met at most as many concurrency errors as others have put since
      it arrived; so a request that ends with the concurrency error has been overtaken by at least
      `MaximumRetries + 2` puts of others (one, when retries are off). */
  lemma ContentionBound(cfg: Config, steps: seq<Step>, i: nat)
    requires UniqueKeys(cfg.table) && i < |After(cfg, steps).requests|
    ensures var w := After(cfg, steps);
            var r := w.requests[i];
            var overtaken := PutsByOthers(w.log, i, r.arrivedAt, |w.log|);
            && |r.charges| <= overtaken
            && (r.phase.Done? && r.phase.verdict == Reply(Error(ConcurrencyException)) ==>
                  overtaken >= if r.settings.maximumRetries < 0 then 1 else r.settings.maximumRetries + 2)
  {
    AfterOk(cfg, steps);
    OvertakenByCharges(cfg, After(cfg, steps), i);
  }

  /** What a concurrency error is charged to: the put that came next after the read of the request,
      by another request, and later than all that it was charged with before. */
  lemma ConflictIsCharged(cfg: Config, steps: seq<Step>, i: nat, jitter: int)
    requires UniqueKeys(cfg.table) && Enabled(cfg, After(cfg, steps), PutRow(i, jitter))
    requires Next(cfg, After(cfg, steps), PutRow(i, jitter)).log == After(cfg, steps).log
    ensures var w := After(cfg, steps);
            var r, r' := w.requests[i], Next(cfg, w, PutRow(i, jitter)).requests[i];
            && r.phase.readAt < |w.log| && w.log[r.phase.readAt].owner != i
            && r'.charges == r.charges + [r.phase.readAt]
            && (r.execution <= r.settings.maximumRetries ==> r'.phase == Waiting(jitter))
            && forall j :: 0 <= j < |r.charges| ==> r.charges[j] < r.phase.readAt
  {
    AfterOk(cfg, steps);
    ConflictInWorld(cfg, After(cfg, steps), i, jitter);
  }

  lemma ConflictInWorld(cfg: Config, w: World, i: nat, jitter: int)
    requires Inv(cfg, w) && Enabled(cfg, w, PutRow(i, jitter)) && Next(cfg, w, PutRow(i, jitter)).log == w.log
    ensures var r, r' := w.requests[i], Next(cfg, w, PutRow(i, jitter)).requests[i];
            && r.phase.readAt < |w.log| && w.log[r.phase.readAt].owner != i
            && r'.charges == r.charges + [r.phase.readAt]
            && (r.execution <= r.settings.maximumRetries ==> r'.phase == Waiting(jitter))
            && forall j :: 0 <= j < |r.charges| ==> r.charges[j] < r.phase.readAt
  {
    var r := w.requests[i];
    assert RequestOk(cfg, w.log, r, i);
    StatementMeaning(cfg.dialect, w.table, AddOrUpdate(cfg.key, CommitOf(r, i).after, Some(r.phase.state.version)), cfg.key);
    PutFinds(cfg, w.log, r.phase.readAt);
  }

  /** A request that others have overtaken at most `MaximumRetries + 1` times so far does not run
      out of retries in the next step. */
  lemma NeverRunsOutEarly(cfg: Config, steps: seq<Step>, step: Step, i: nat)
    requires UniqueKeys(cfg.table) && i < |After(cfg, steps).requests|
    requires !After(cfg, steps).requests[i].phase.Done?
    requires var w := After(cfg, steps);
             PutsByOthers(w.log, i, w.requests[i].arrivedAt, |w.log|) <=
             if w.requests[i].settings.maximumRetries < 0 then 0 else w.requests[i].settings.maximumRetries + 1
    ensures var r := Next(cfg, After(cfg, steps), step).requests[i];
            !(r.phase.Done? && r.phase.verdict == Reply(Error(ConcurrencyException)))
  {
    AfterOk(cfg, steps);
    NotOutYet(cfg, After(cfg, steps), step, i);
  }

  lemma NotOutYet(cfg: Config, w: World, step: Step, i: nat)
    requires Inv(cfg, w) && i < |w.requests| && !w.requests[i].phase.Done?
    requires PutsByOthers(w.log, i, w.requests[i].arrivedAt, |w.log|) < MaximumExecutions(w.requests[i].settings)
    ensures i < |Next(cfg, w, step).requests|
    ensures var r := Next(cfg, w, step).requests[i];
            !(r.phase.Done? && r.phase.verdict == Reply(Error(ConcurrencyException)))
  {
    var w' := Next(cfg, w, step);
    NextExtends(cfg, w, step);
    NextKeeps(cfg, w, step);
    OvertakenByCharges(cfg, w', i);
    var r := w'.requests[i];
    if r.phase.Done? && r.phase.verdict == Reply(Error(ConcurrencyException)) {
      ErrorPutsNothing(cfg, w, step, i);
    }
  }

  lemma ErrorPutsNothing(cfg: Config, w: World, step: Step, i: nat)
    requires Inv(cfg, w) && i < |w.requests| && !w.requests[i].phase.Done?
    requires var r := Next(cfg, w, step).requests[i];
             r.phase.Done? && r.phase.verdict == Reply(Error(ConcurrencyException))
    ensures Next(cfg, w, step).log == w.log
    ensures var r, before := Next(cfg, w, step).requests[i], w.requests[i];
            r.arrivedAt == before.arrivedAt && r.settings == before.settings
  {
    assert step.PutRow? ==> step.i == i;
  }

  // ---- Termination ----

  /** The steps that request `i` can still take: three for each execution left. */
  function Rank(r: Request): nat {
    var left := MaximumExecutions(r.settings) - r.execution;
    if r.phase.Done? || left <= 0 then 0
    else 3 * left - (if r.phase.Ready? then 0 else if r.phase.HasRead? then 1 else 2)
  }

  function TotalRank(rs: seq<Request>): nat {
    if rs == [] then 0 else TotalRank(rs[..|rs| - 1]) + Rank(rs[|rs| - 1])
  }

  /** Steps by which a request gets on with its work. */
  predicate IsWork(cfg: Config, w: World, step: Step) {
    (step.ReadRow? || step.PutRow? || step.ActionThrows? || step.Elapse?) && Enabled(cfg, w, step)
  }

  function WorkSteps(cfg: Config, w: World, steps: seq<Step>): nat
    decreases |steps|
  {
    if steps == [] then 0
    else (if IsWork(cfg, w, steps[0]) then 1 else 0) + WorkSteps(cfg, Next(cfg, w, steps[0]), steps[1..])
  }

  lemma {:induction false} TotalRankUpdate(rs: seq<Request>, i: nat, r: Request)
    requires i < |rs|
    ensures TotalRank(rs[i := r]) == TotalRank(rs) - Rank(rs[i]) + Rank(r)
  {
    var n := |rs| - 1;
    if i == n {
      assert rs[i := r][..n] == rs[..n];
    } else {
      assert rs[i := r][..n] == rs[..n][i := r];
      TotalRankUpdate(rs[..n], i, r);
    }
  }

  lemma StepLowersRank(cfg: Config, w: World, step: Step)
    requires Inv(cfg, w) && Enabled(cfg, w, step) && !step.Arrive? && !step.Foreign?
    ensures var (r, r') := (w.requests[step.i], Next(cfg, w, step).requests[step.i]);
            && Next(cfg, w, step).requests == w.requests[step.i := r']
            && Rank(r') + (if step.Abort? then 0 else 1) <= Rank(r)
  {
    assert RequestOk(cfg, w.log, w.requests[step.i], step.i);
  }

  /** The working steps that an arriving request brings with it: three for each allowed execution. */
  function Allowed(steps: seq<Step>): nat {
    if steps == [] then 0
    else (if steps[0].Arrive? then 3 * MaximumExecutions(steps[0].settings) else 0) + Allowed(steps[1..])
  }

  lemma WorkLowersRank(cfg: Config, w: World, step: Step)
    requires Inv(cfg, w)
    ensures TotalRank(Next(cfg, w, step).requests) + (if IsWork(cfg, w, step) then 1 else 0) <=
            TotalRank(w.requests) + Allowed([step])
  {
    var after := Next(cfg, w, step).requests;
    if step.Arrive? {
      assert after[..|w.requests|] == w.requests;
      assert [step][1..] == [];
    } else if Enabled(cfg, w, step) && !step.Foreign? {
      StepLowersRank(cfg, w, step);
      TotalRankUpdate(w.requests, step.i, after[step.i]);
    }
  }

  /** However the steps interleave, and whenever further requests arrive: the working steps taken and
      those still possible are at most those possible before and three for each execution that the
      settings of an arriving request allow. */
  lemma {:induction false} WorkIsBounded(cfg: Config, w: World, steps: seq<Step>)
    requires Inv(cfg, w)
    ensures WorkSteps(cfg, w, steps) + TotalRank(RunFrom(cfg, w, steps).requests) <= TotalRank(w.requests) + Allowed(steps)
    decreases |steps|
  {
    if steps != [] {
      WorkLowersRank(cfg, w, steps[0]);
      assert Allowed([steps[0]]) + Allowed(steps[1..]) == Allowed(steps) by {
        assert [steps[0]][1..] == [];
      }
      NextKeeps(cfg, w, steps[0]);
      WorkIsBounded(cfg, Next(cfg, w, steps[0]), steps[1..]);
    }
  }

  /** The wait that `Task.Delay(-1)` is, with nobody to cut it short. */
  predicate WaitsForEver(r: Request) {
    r.phase.Waiting? && BackoffTime(r.settings, r.execution, r.phase.jitter) == -1 && !r.aborted
  }

  /** Conflicts never block: an unfinished request has a step of its own enabled, unless its settings
      make it wait for ever. */
  lemma NeverStuck(cfg: Config, w: World, i: nat)
    requires Inv(cfg, w) && i < |w.requests| && !w.requests[i].phase.Done?
    ensures IsWork(cfg, w, ReadRow(i)) || IsWork(cfg, w, PutRow(i, 0)) || IsWork(cfg, w, Elapse(i, w.requests[i].aborted))
            <==> !WaitsForEver(w.requests[i])
    ensures WaitsForEver(w.requests[i]) ==> forall s :: IsWork(cfg, w, s) ==> s.i != i
    ensures NonNegative(w.requests[i].settings) && Fits(w.requests[i].settings, w.requests[i].execution) ==>
              !WaitsForEver(w.requests[i])
  {
    var r := w.requests[i];
    assert RequestOk(cfg, w.log, r, i);
    if r.phase.Waiting? && NonNegative(r.settings) && Fits(r.settings, r.execution) {
      BackoffInRange(r.settings, r.execution, r.phase.jitter);
    }
  }

  // ---- Creation of the row ----

  /** From an absent row the fold holds at every put but possibly the second, and there exactly when
      that put's reader had seen the row; replies and puts answer for each other as ever. */
  lemma CreationFold(cfg: Config, steps: seq<Step>)
    requires UniqueKeys(cfg.table) && Lookup(cfg.table, cfg.key).None?
    ensures var w := After(cfg, steps);
            && (forall k :: 0 <= k < |w.log| && k != 1 ==> ValueAt(cfg, w.log, k + 1) == w.log[k].f(ValueAt(cfg, w.log, k)))
            && (|w.log| >= 2 ==>
                  ValueAt(cfg, w.log, 2) == w.log[1].f(if w.log[1].read.hasValue then ValueAt(cfg, w.log, 1) else cfg.zero))
            && (w.log != [] ==> Lookup(w.table, cfg.key) == Some(Entry(cfg.key, ValueAt(cfg, w.log, |w.log|), |w.log| - 1)))
            && (w.log == [] ==> Lookup(w.table, cfg.key).None?)
            && (forall i :: 0 <= i < |w.requests| ==> ReplyIsHonest(cfg, w, i))
            && (forall k :: 0 <= k < |w.log| ==> PutIsAnswered(w, k))
  {
    var w := After(cfg, steps);
    AfterOk(cfg, steps);
    forall i | 0 <= i < |w.requests| ensures ReplyIsHonest(cfg, w, i) {
      HonestReplies(cfg, w, i);
    }
    forall k | 0 <= k < |w.log| ensures PutIsAnswered(w, k) {
      PutsAreAnswered(cfg, w, k);
    }
    forall k | 0 <= k < |w.log| && k != 1 ensures ValueAt(cfg, w.log, k + 1) == w.log[k].f(ValueAt(cfg, w.log, k)) {
      assert CommitOk(cfg, w.log, w.requests, k);
    }
    if |w.log| >= 2 {
      assert CommitOk(cfg, w.log, w.requests, 1);
    }
  }

  /** The first put is lost: the second put came from a reader of the absent row. */
  predicate FirstPutLost(log: seq<Commit>) {
    |log| >= 2 && !log[1].read.hasValue
  }
}

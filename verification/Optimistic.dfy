/** Optimistic concurrency end to end: any number of requests on any number of replicas, each
    reading (value, version), computing, putting under the version it read, and being re-executed
    by the host. Every SQL statement is one atomic step; steps of different requests interleave
    freely. `log` and the position fields are history variables: no step depends on them. */
module Optimistic {
  import opened Basics
  import opened StateTable
  import opened EFStates
  import opened FilterPipeline
  import opened Retry
  import opened ServiceHost

  /** An action either puts a function of the value it read, or only reports the value. */
  datatype Kind = Update(f: int -> int) | Query

  /** Where the operation of a finished request took effect, counted in successful puts: after
      `at.value` of them. None when it took no effect. */
  datatype Phase =
    | Ready
    | HasRead(state: State<int>, readAt: nat)
    | Waiting(jitter: int)
    | Done(verdict: Verdict, at: Option<nat>)

  /** `execution` counts the re-executions; `charges` names, for each concurrency error so far, a
      put that the log holds. */
  datatype Request = Request(
    kind: Kind, settings: Settings, aborted: bool, arrivedAt: nat, execution: nat, charges: seq<nat>, phase: Phase)

  /** A successful put: which request, its function, the state it had read, the value it stored. */
  datatype Commit = Commit(owner: nat, f: int -> int, read: State<int>, after: int)

  datatype World = World(table: seq<Entry<int>>, requests: seq<Request>, log: seq<Commit>)

  datatype Config = Config(dialect: Dialect, key: string, zero: int, table: seq<Entry<int>>)

  datatype Step =
    | Arrive(kind: Kind, settings: Settings)
    | ReadRow(i: nat)
    | PutRow(i: nat, jitter: int)
    | ActionThrows(i: nat, error: Exn)
    | Elapse(i: nat, cutShort: bool)
    | Abort(i: nat)
    | Foreign(s: Statement<int>)

  function Start(cfg: Config): World {
    World(cfg.table, [], [])
  }

  function Finish(r: Request, o: ActionOutcome, at: Option<nat>): Request {
    r.(phase := Done(RetryVerdict(r.settings, r.execution, o, false, r.aborted), at))
  }

  function AfterRead(cfg: Config, w: World, r: Request): Request {
    var s := ToState(Lookup(w.table, cfg.key), cfg.zero);
    if r.kind.Query? then Finish(r, Returned(Some(s.value)), Some(|w.log|))
    else r.(phase := HasRead(s, |w.log|))
  }

  /** After a put that matched no row: a concurrency error, retried after a delay or final. */
  function AfterConflict(r: Request, readAt: nat, jitter: int): Request {
    var charged := r.(charges := r.charges + [readAt]);
    if Retries(r.settings, r.execution, Threw(ConcurrencyException)) then charged.(phase := Waiting(jitter))
    else Finish(charged, Threw(ConcurrencyException), None)
  }

  /** How long a waiting request has to wait, in milliseconds; -1 stands for ever, and less throws. */
  function Delay(r: Request): int
    requires r.phase.Waiting?
  {
    BackoffTime(r.settings, r.execution, r.phase.jitter)
  }

  function AfterDelay(r: Request, delayThrows: bool): Request {
    var v := RetryVerdict(r.settings, r.execution, Threw(ConcurrencyException), delayThrows, r.aborted);
    if v.RunAgain? then r.(execution := r.execution + 1, phase := Ready) else r.(phase := Done(v, None))
  }

  function CommitOf(r: Request, i: nat): Commit
    requires r.phase.HasRead? && r.kind.Update?
  {
    Commit(i, r.kind.f, r.phase.state, r.kind.f(r.phase.state.value))
  }

  function Committed(r: Request, n: nat): Request
    requires r.phase.HasRead? && r.kind.Update?
  {
    Finish(r, Returned(Some(r.kind.f(r.phase.state.value))), Some(n + 1))
  }

  function PutStep(cfg: Config, w: World, i: nat, jitter: int): World
    requires i < |w.requests| && w.requests[i].phase.HasRead? && w.requests[i].kind.Update?
  {
    var r := w.requests[i];
    var (table, count) :=
      Execute(cfg.dialect, w.table, AddOrUpdate(cfg.key, CommitOf(r, i).after, Some(r.phase.state.version)));
    if count == 1 then World(table, w.requests[i := Committed(r, |w.log|)], w.log + [CommitOf(r, i)])
    else World(table, w.requests[i := AfterConflict(r, r.phase.readAt, jitter)], w.log)
  }

  predicate Enabled(cfg: Config, w: World, step: Step) {
    match step
    case Arrive(_, _) => true
    case ReadRow(i) => i < |w.requests| && w.requests[i].phase.Ready?
    case PutRow(i, jitter) =>
      i < |w.requests| && w.requests[i].phase.HasRead? && w.requests[i].kind.Update?
      && IsJitter(w.requests[i].settings, jitter)
    case ActionThrows(i, e) =>
      i < |w.requests| && (w.requests[i].phase.Ready? || w.requests[i].phase.HasRead?) && e != ConcurrencyException
    case Elapse(i, cutShort) =>
      i < |w.requests| && w.requests[i].phase.Waiting?
      && (cutShort ==> w.requests[i].aborted) && (Delay(w.requests[i]) == -1 ==> cutShort)
    case Abort(i) => i < |w.requests|
    case Foreign(s) => s.key != cfg.key
  }

  /** One step; a step that is not enabled changes nothing. */
  function Next(cfg: Config, w: World, step: Step): World {
    if !Enabled(cfg, w, step) then w
    else
      match step
      case Arrive(kind, settings) =>
        w.(requests := w.requests + [Request(kind, settings, false, |w.log|, 0, [], Ready)])
      case ReadRow(i) => w.(requests := w.requests[i := AfterRead(cfg, w, w.requests[i])])
      case PutRow(i, jitter) => PutStep(cfg, w, i, jitter)
      case ActionThrows(i, e) => w.(requests := w.requests[i := Finish(w.requests[i], Threw(e), None)])
      case Elapse(i, cutShort) =>
        w.(requests := w.requests[i := AfterDelay(w.requests[i], cutShort || Delay(w.requests[i]) < -1)])
      case Abort(i) => w.(requests := w.requests[i := w.requests[i].(aborted := true)])
      case Foreign(s) => w.(table := Execute(cfg.dialect, w.table, s).0)
  }

  function RunFrom(cfg: Config, w: World, steps: seq<Step>): World
    decreases |steps|
  {
    if steps == [] then w else RunFrom(cfg, Next(cfg, w, steps[0]), steps[1..])
  }

  // ---- The row as the log tells it ----

  function RowAt(cfg: Config, log: seq<Commit>, n: nat): Option<Entry<int>>
    requires n <= |log|
  {
    var initial := Lookup(cfg.table, cfg.key);
    if n == 0 then initial
    else Some(Entry(cfg.key, log[n - 1].after, if initial.Some? then initial.value.version + n else n - 1))
  }

  function StateAt(cfg: Config, log: seq<Commit>, n: nat): State<int>
    requires n <= |log|
  {
    ToState(RowAt(cfg, log, n), cfg.zero)
  }

  function ValueAt(cfg: Config, log: seq<Commit>, n: nat): int
    requires n <= |log|
  {
    StateAt(cfg, log, n).value
  }

  /** The second put ever on a row that did not exist may still come from a reader of its absence:
      absence reads as version 0, and the first put stores version 0. */
  predicate StaleInsert(cfg: Config, log: seq<Commit>, k: nat)
    requires k < |log|
  {
    Lookup(cfg.table, cfg.key).None? && k == 1 && log[k].read == State(false, cfg.zero, 0)
  }

  // ---- The invariant ----

  ghost predicate CommitOk(cfg: Config, log: seq<Commit>, requests: seq<Request>, k: nat)
    requires k < |log|
  {
    var c := log[k];
    && c.after == c.f(c.read.value)
    && (c.read == StateAt(cfg, log, k) || StaleInsert(cfg, log, k))
    && c.owner < |requests|
    && requests[c.owner].kind == Update(c.f)
    && requests[c.owner].phase.Done?
    && requests[c.owner].phase.at == Some(k + 1)
  }

  /** Each charge is a put by somebody else since the request arrived, and no put is charged twice. */
  predicate ChargesOk(log: seq<Commit>, r: Request, i: nat) {
    && (forall j :: 0 <= j < |r.charges| ==> r.arrivedAt <= r.charges[j] < |log| && log[r.charges[j]].owner != i)
    && (forall j, l :: 0 <= j < l < |r.charges| ==> r.charges[j] < r.charges[l])
  }

  predicate DoneOk(cfg: Config, log: seq<Commit>, r: Request, i: nat)
    requires r.phase.Done?
  {
    var v := r.phase.verdict;
    match r.phase.at
    case None =>
      && (v == Fail || v == Reply(Canceled) || (v.Reply? && v.body.Error?))
      && (v == Reply(Error(ConcurrencyException)) ==> |r.charges| == MaximumExecutions(r.settings))
    case Some(n) =>
      && r.arrivedAt <= n <= |log|
      && (v == Reply(Canceled) || v == Reply(Value(Some(ValueAt(cfg, log, n)))))
      && (r.kind.Update? ==> r.arrivedAt < n && log[n - 1].owner == i)
  }

  predicate RequestOk(cfg: Config, log: seq<Commit>, r: Request, i: nat) {
    && r.arrivedAt <= |log|
    && ChargesOk(log, r, i)
    && (!r.phase.Done? ==> forall k :: 0 <= k < |log| ==> log[k].owner != i)
    && match r.phase
       case Ready => |r.charges| == r.execution < MaximumExecutions(r.settings)
       case HasRead(s, n) =>
         && |r.charges| == r.execution < MaximumExecutions(r.settings)
         && r.kind.Update?
         && r.arrivedAt <= n <= |log|
         && s == StateAt(cfg, log, n)
         && (forall j :: 0 <= j < |r.charges| ==> r.charges[j] < n)
       case Waiting(jitter) =>
         && IsJitter(r.settings, jitter)
         && |r.charges| == r.execution + 1
         && Retries(r.settings, r.execution, Threw(ConcurrencyException))
       case Done(_, _) => DoneOk(cfg, log, r, i)
  }

  ghost predicate Inv(cfg: Config, w: World) {
    && UniqueKeys(w.table)
    && Lookup(w.table, cfg.key) == RowAt(cfg, w.log, |w.log|)
    && (forall k :: 0 <= k < |w.log| ==> CommitOk(cfg, w.log, w.requests, k))
    && (forall i :: 0 <= i < |w.requests| ==> RequestOk(cfg, w.log, w.requests[i], i))
  }

  lemma RequestStable(cfg: Config, log: seq<Commit>, c: Commit, r: Request, i: nat)
    requires RequestOk(cfg, log, r, i) && c.owner != i
    ensures RequestOk(cfg, log + [c], r, i)
  {
    forall n | 0 <= n <= |log| ensures StateAt(cfg, log + [c], n) == StateAt(cfg, log, n) {}
  }

  lemma CommitStable(cfg: Config, log: seq<Commit>, c: Commit, before: seq<Request>, after: seq<Request>, k: nat)
    requires k < |log| && CommitOk(cfg, log, before, k)
    requires |before| <= |after|
    requires after[log[k].owner].kind == before[log[k].owner].kind
    requires after[log[k].owner].phase == before[log[k].owner].phase
    ensures CommitOk(cfg, log, after, k)
    ensures CommitOk(cfg, log + [c], after, k)
  {
    assert StateAt(cfg, log + [c], k) == StateAt(cfg, log, k);
  }

  /** Replacing one unfinished request, with the log and the row as they are. */
  lemma ReplaceRequest(cfg: Config, w: World, i: nat, r: Request)
    requires Inv(cfg, w) && i < |w.requests|
    requires RequestOk(cfg, w.log, r, i)
    requires w.requests[i].phase.Done? ==> r.phase == w.requests[i].phase && r.kind == w.requests[i].kind
    ensures Inv(cfg, w.(requests := w.requests[i := r]))
  {
    var after := w.requests[i := r];
    forall k | 0 <= k < |w.log| ensures CommitOk(cfg, w.log, after, k) {
      assert CommitOk(cfg, w.log, w.requests, k);
    }
  }

  lemma ReadKeeps(cfg: Config, w: World, i: nat)
    requires Inv(cfg, w) && Enabled(cfg, w, ReadRow(i))
    ensures Inv(cfg, Next(cfg, w, ReadRow(i)))
  {
    var r := w.requests[i];
    assert RequestOk(cfg, w.log, r, i);
    ReplaceRequest(cfg, w, i, AfterRead(cfg, w, r));
  }

  /** What the guarded put finds: it takes effect exactly when nobody has put since the read, or
      on the stale insert. */
  lemma PutFinds(cfg: Config, log: seq<Commit>, n: nat)
    requires n <= |log|
    ensures var s := StateAt(cfg, log, n);
            var row := RowAt(cfg, log, |log|);
            (row.None? || row.value.version == s.version) <==>
            (n == |log| || (Lookup(cfg.table, cfg.key).None? && n == 0 && |log| == 1))
  {
  }

  lemma ConflictKeeps(cfg: Config, w: World, i: nat, jitter: int)
    requires Inv(cfg, w) && i < |w.requests| && w.requests[i].phase.HasRead?
    requires w.requests[i].phase.readAt < |w.log| && IsJitter(w.requests[i].settings, jitter)
    ensures Inv(cfg, w.(requests := w.requests[i := AfterConflict(w.requests[i], w.requests[i].phase.readAt, jitter)]))
  {
    var r := w.requests[i];
    assert RequestOk(cfg, w.log, r, i);
    ReplaceRequest(cfg, w, i, AfterConflict(r, r.phase.readAt, jitter));
  }

  /** The put of request `i` may go into the log next: its read is still current, or stale in the
      one way that the version check does not see. */
  ghost predicate MayCommit(cfg: Config, w: World, i: nat) {
    && i < |w.requests| && w.requests[i].phase.HasRead? && w.requests[i].kind.Update?
    && var n := w.requests[i].phase.readAt;
       n == |w.log| || (Lookup(cfg.table, cfg.key).None? && n == 0 && |w.log| == 1)
  }

  lemma CommitKeepsLog(cfg: Config, w: World, i: nat, k: nat)
    requires Inv(cfg, w) && MayCommit(cfg, w, i) && k <= |w.log|
    ensures var r := w.requests[i];
            CommitOk(cfg, w.log + [CommitOf(r, i)], w.requests[i := Committed(r, |w.log|)], k)
  {
    var r, n := w.requests[i], |w.log|;
    var c := CommitOf(r, i);
    var requests := w.requests[i := Committed(r, n)];
    assert RequestOk(cfg, w.log, r, i);
    if k < n {
      assert CommitOk(cfg, w.log, w.requests, k);
      CommitStable(cfg, w.log, c, w.requests, requests, k);
    } else {
      assert StateAt(cfg, w.log + [c], n) == StateAt(cfg, w.log, n);
    }
  }

  lemma CommitKeepsRequests(cfg: Config, w: World, i: nat, j: nat)
    requires Inv(cfg, w) && MayCommit(cfg, w, i) && j < |w.requests|
    ensures var r := w.requests[i];
            RequestOk(cfg, w.log + [CommitOf(r, i)], w.requests[i := Committed(r, |w.log|)][j], j)
  {
    var r, n := w.requests[i], |w.log|;
    var c := CommitOf(r, i);
    assert RequestOk(cfg, w.log, w.requests[j], j);
    if j != i {
      RequestStable(cfg, w.log, c, w.requests[j], j);
    } else {
      assert ValueAt(cfg, w.log + [c], n + 1) == c.after;
    }
  }

  lemma CommitKeeps(cfg: Config, w: World, i: nat, table: seq<Entry<int>>)
    requires Inv(cfg, w) && MayCommit(cfg, w, i)
    requires UniqueKeys(table)
    requires Lookup(table, cfg.key) == RowAt(cfg, w.log + [CommitOf(w.requests[i], i)], |w.log| + 1)
    ensures var r := w.requests[i];
            Inv(cfg, World(table, w.requests[i := Committed(r, |w.log|)], w.log + [CommitOf(r, i)]))
  {
    var r := w.requests[i];
    var log, requests := w.log + [CommitOf(r, i)], w.requests[i := Committed(r, |w.log|)];
    forall k | 0 <= k < |log| ensures CommitOk(cfg, log, requests, k) {
      CommitKeepsLog(cfg, w, i, k);
    }
    forall j | 0 <= j < |requests| ensures RequestOk(cfg, log, requests[j], j) {
      CommitKeepsRequests(cfg, w, i, j);
    }
  }

  lemma PutKeeps(cfg: Config, w: World, i: nat, jitter: int)
    requires Inv(cfg, w) && Enabled(cfg, w, PutRow(i, jitter))
    ensures Inv(cfg, PutStep(cfg, w, i, jitter))
  {
    var r := w.requests[i];
    assert RequestOk(cfg, w.log, r, i);
    var s := AddOrUpdate(cfg.key, CommitOf(r, i).after, Some(r.phase.state.version));
    StatementMeaning(cfg.dialect, w.table, s, cfg.key);
    PutFinds(cfg, w.log, r.phase.readAt);
    var (table, count) := Execute(cfg.dialect, w.table, s);
    if count == 1 {
      assert MayCommit(cfg, w, i);
      CommitKeeps(cfg, w, i, table);
    } else {
      ConflictKeeps(cfg, w.(table := table), i, jitter);
    }
  }

  lemma ElapseKeeps(cfg: Config, w: World, i: nat, throws: bool)
    requires Inv(cfg, w) && i < |w.requests| && w.requests[i].phase.Waiting?
    ensures Inv(cfg, w.(requests := w.requests[i := AfterDelay(w.requests[i], throws)]))
  {
    var r := w.requests[i];
    assert RequestOk(cfg, w.log, r, i);
    ReplaceRequest(cfg, w, i, AfterDelay(r, throws));
  }

  lemma ThrowKeeps(cfg: Config, w: World, i: nat, e: Exn)
    requires Inv(cfg, w) && Enabled(cfg, w, ActionThrows(i, e))
    ensures Inv(cfg, Next(cfg, w, ActionThrows(i, e)))
  {
    var r := w.requests[i];
    assert RequestOk(cfg, w.log, r, i);
    ReplaceRequest(cfg, w, i, Finish(r, Threw(e), None));
  }

  lemma NextKeeps(cfg: Config, w: World, step: Step)
    requires Inv(cfg, w)
    ensures Inv(cfg, Next(cfg, w, step))
  {
    if Enabled(cfg, w, step) {
      match step
      case Arrive(kind, settings) =>
        var after := Next(cfg, w, step).requests;
        forall k | 0 <= k < |w.log| ensures CommitOk(cfg, w.log, after, k) {
          assert CommitOk(cfg, w.log, w.requests, k);
        }
        forall j | 0 <= j < |after| ensures RequestOk(cfg, w.log, after[j], j) {
          if j < |w.requests| {
            assert RequestOk(cfg, w.log, w.requests[j], j);
          } else {
            forall k | 0 <= k < |w.log| ensures w.log[k].owner != j {
              assert CommitOk(cfg, w.log, w.requests, k);
            }
          }
        }
      case ReadRow(i) => ReadKeeps(cfg, w, i);
      case PutRow(i, jitter) => PutKeeps(cfg, w, i, jitter);
      case ActionThrows(i, e) => ThrowKeeps(cfg, w, i, e);
      case Elapse(i, cutShort) => ElapseKeeps(cfg, w, i, cutShort || Delay(w.requests[i]) < -1);
      case Abort(i) =>
        assert RequestOk(cfg, w.log, w.requests[i], i);
        ReplaceRequest(cfg, w, i, w.requests[i].(aborted := true));
      case Foreign(s) => StatementMeaning(cfg.dialect, w.table, s, cfg.key);
    }
  }

  lemma {:induction false} RunKeeps(cfg: Config, w: World, steps: seq<Step>)
    requires Inv(cfg, w)
    ensures Inv(cfg, RunFrom(cfg, w, steps))
    decreases |steps|
  {
    if steps != [] {
      NextKeeps(cfg, w, steps[0]);
      RunKeeps(cfg, Next(cfg, w, steps[0]), steps[1..]);
    }
  }

  lemma StartOk(cfg: Config)
    requires UniqueKeys(cfg.table)
    ensures Inv(cfg, Start(cfg))
  {
  }
}

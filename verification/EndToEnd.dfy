/** The whole path: a client call, its delivery, the re-executed action over the versioned store, the
    reply and the client's completion. Job `j` of the host is request `j` of the store protocol. */
module EndToEnd {
  import opened Basics
  import opened StateTable
  import opened Retry
  import opened ServiceHost
  import opened RpcClient
  import opened Linearizability
  import O = Optimistic
  import R = RpcLifecycle

  /** `kinds[id]` is what call `id` asks for. */
  datatype World = World(store: O.World, rpc: R.World, kinds: seq<O.Kind>)

  datatype Step =
    | Call(kind: O.Kind, routed: bool)
    | Take(id: nat, settings: Settings)
    | Store(change: O.Step)
    | Conclude(j: nat)
    | Rpc(event: R.Step)
    | Cancel(id: nat)

  function Start(cfg: O.Config): World {
    World(O.Start(cfg), R.START, [])
  }

  /** The steps of the remaining channel and client events. */
  predicate IsEvent(s: R.Step) {
    s.Acknowledge? || s.CleanUp? || s.ReplyArrives? || s.Returned? || s.TimesOut?
  }

  predicate Enabled(w: World, s: Step) {
    match s
    case Call(_, _) => true
    case Take(id, _) => id in w.rpc.queued && id < |w.kinds|
    case Store(t) => !t.Arrive? && !t.Abort?
    case Conclude(j) =>
      j < |w.rpc.jobs| && w.rpc.jobs[j].phase == R.InTry && j < |w.store.requests| && w.store.requests[j].phase.Done?
    case Rpc(t) => IsEvent(t)
    case Cancel(_) => true
  }

  function Next(cfg: O.Config, w: World, s: Step): World {
    if !Enabled(w, s) then w
    else
      match s
      case Call(kind, routed) => w.(rpc := R.Next(w.rpc, R.Invoke(routed)), kinds := w.kinds + [kind])
      case Take(id, settings) =>
        w.(rpc := R.Next(w.rpc, R.Accept(id)), store := O.Next(cfg, w.store, O.Arrive(w.kinds[id], settings)))
      case Store(t) => w.(store := O.Next(cfg, w.store, t))
      case Conclude(j) => w.(rpc := R.AfterVerdict(w.rpc, j, w.store.requests[j].phase.verdict))
      case Rpc(t) => w.(rpc := R.Next(w.rpc, t))
      case Cancel(id) =>
        w.(rpc := R.Next(w.rpc, R.CancelMessage(id)),
           store := if id in w.rpc.ongoing then O.Next(cfg, w.store, O.Abort(w.rpc.ongoing[id])) else w.store)
  }

  function Run(cfg: O.Config, w: World, steps: seq<Step>): World
    decreases |steps|
  {
    if steps == [] then w else Run(cfg, Next(cfg, w, steps[0]), steps[1..])
  }

  /** Job and request agree: on what is asked for, and on any reply. */
  ghost predicate Agree(w: World, j: nat)
    requires j < |w.rpc.jobs| && j < |w.store.requests|
  {
    var job, r := w.rpc.jobs[j], w.store.requests[j];
    && job.id < |w.kinds| && r.kind == w.kinds[job.id]
    && (job.reply.Some? ==> r.phase.Done? && r.phase.verdict == Reply(job.reply.value))
  }

  ghost predicate Inv(cfg: O.Config, w: World) {
    && O.Inv(cfg, w.store) && R.Inv(w.rpc)
    && |w.store.requests| == |w.rpc.jobs|
    && |w.kinds| == |w.rpc.calls|
    && forall j :: 0 <= j < |w.rpc.jobs| ==> Agree(w, j)
  }

  lemma ConcludeKeeps(cfg: O.Config, w: World, j: nat)
    requires Inv(cfg, w) && Enabled(w, Conclude(j))
    ensures Inv(cfg, Next(cfg, w, Conclude(j)))
  {
    var r := w.store.requests[j];
    assert O.RequestOk(cfg, w.store.log, r, j);
    R.VerdictKeeps(w.rpc, j, r.phase.verdict);
    var w' := Next(cfg, w, Conclude(j));
    forall i | 0 <= i < |w'.rpc.jobs| ensures Agree(w', i) {
      assert Agree(w, i);
    }
  }

  lemma StoreKeeps(cfg: O.Config, w: World, t: O.Step)
    requires Inv(cfg, w) && !t.Arrive?
    ensures Inv(cfg, w.(store := O.Next(cfg, w.store, t)))
  {
    O.NextKeeps(cfg, w.store, t);
    NextExtends(cfg, w.store, t);
    var w' := w.(store := O.Next(cfg, w.store, t));
    forall i | 0 <= i < |w'.rpc.jobs| ensures Agree(w', i) {
      assert Agree(w, i);
    }
  }

  lemma EventKeeps(cfg: O.Config, w: World, t: R.Step)
    requires Inv(cfg, w) && (IsEvent(t) || t.CancelMessage?)
    ensures Inv(cfg, w.(rpc := R.Next(w.rpc, t)))
  {
    R.NextKeeps(w.rpc, t);
    var w' := w.(rpc := R.Next(w.rpc, t));
    forall i | 0 <= i < |w'.rpc.jobs| ensures Agree(w', i) {
      assert Agree(w, i);
    }
  }

  lemma NextKeeps(cfg: O.Config, w: World, s: Step)
    requires Inv(cfg, w)
    ensures Inv(cfg, Next(cfg, w, s))
  {
    if Enabled(w, s) {
      var w' := Next(cfg, w, s);
      match s
      case Call(kind, routed) =>
        R.NextKeeps(w.rpc, R.Invoke(routed));
        forall i | 0 <= i < |w'.rpc.jobs| ensures Agree(w', i) {
          assert Agree(w, i);
        }
      case Take(id, settings) =>
        R.NextKeeps(w.rpc, R.Accept(id));
        O.NextKeeps(cfg, w.store, O.Arrive(w.kinds[id], settings));
        forall i | 0 <= i < |w'.rpc.jobs| ensures Agree(w', i) {
          if i < |w.rpc.jobs| { assert Agree(w, i); }
        }
      case Store(t) => StoreKeeps(cfg, w, t);
      case Conclude(j) => ConcludeKeeps(cfg, w, j);
      case Rpc(t) => EventKeeps(cfg, w, t);
      case Cancel(id) =>
        EventKeeps(cfg, w, R.CancelMessage(id));
        if id in w.rpc.ongoing {
          StoreKeeps(cfg, w.(rpc := R.Next(w.rpc, R.CancelMessage(id))), O.Abort(w.rpc.ongoing[id]));
        }
    }
  }

  lemma {:induction false} RunKeeps(cfg: O.Config, w: World, steps: seq<Step>)
    requires Inv(cfg, w)
    ensures Inv(cfg, Run(cfg, w, steps))
    decreases |steps|
  {
    if steps != [] {
      NextKeeps(cfg, w, steps[0]);
      RunKeeps(cfg, Next(cfg, w, steps[0]), steps[1..]);
    }
  }

  /** Job `j` serves call `id`, and its one put, number `n`, stored `value`. */
  ghost predicate Applied(w: World, id: nat, j: nat, n: nat, value: int) {
    && id < |w.kinds| && j < |w.rpc.jobs| && w.rpc.jobs[j].id == id
    && 1 <= n <= |w.store.log| && w.store.log[n - 1].owner == j && w.store.log[n - 1].after == value
    && w.kinds[id].Update? && w.store.log[n - 1].f == w.kinds[id].f
  }

  // ---- The store part of a run is a run of the store protocol ----

  /** The steps of the store protocol that a step of the whole path amounts to. */
  function StoreSteps(w: World, s: Step): seq<O.Step> {
    match s
    case Take(id, settings) => if id in w.rpc.queued && id < |w.kinds| then [O.Arrive(w.kinds[id], settings)] else []
    case Store(t) => if t.Arrive? || t.Abort? then [] else [t]
    case Cancel(id) => if id in w.rpc.ongoing then [O.Abort(w.rpc.ongoing[id])] else []
    case _ => []
  }

  function AllStoreSteps(cfg: O.Config, w: World, steps: seq<Step>): seq<O.Step>
    decreases |steps|
  {
    if steps == [] then [] else StoreSteps(w, steps[0]) + AllStoreSteps(cfg, Next(cfg, w, steps[0]), steps[1..])
  }

  lemma StepProjects(cfg: O.Config, w: World, s: Step)
    ensures Next(cfg, w, s).store == O.RunFrom(cfg, w.store, StoreSteps(w, s))
  {
    var ts := StoreSteps(w, s);
    if ts != [] {
      assert ts == [ts[0]] && ts[1..] == [];
      assert O.RunFrom(cfg, w.store, ts) == O.RunFrom(cfg, O.Next(cfg, w.store, ts[0]), ts[1..]);
    }
  }

  /** Forgetting clients and host, a run of the whole path is a run of the store protocol, so all that
      is proved of such runs holds of the store under it. */
  lemma {:induction false} RunProjects(cfg: O.Config, w: World, steps: seq<Step>)
    ensures Run(cfg, w, steps).store == O.RunFrom(cfg, w.store, AllStoreSteps(cfg, w, steps))
    decreases |steps|
  {
    if steps != [] {
      var w1 := Next(cfg, w, steps[0]);
      StepProjects(cfg, w, steps[0]);
      RunProjects(cfg, w1, steps[1..]);
      RunSplits(cfg, w.store, StoreSteps(w, steps[0]), AllStoreSteps(cfg, w1, steps[1..]));
    }
  }

  /** A delivery can conclude as soon as its request is done. */
  lemma DoneCanConclude(cfg: O.Config, w: World, j: nat)
    requires Inv(cfg, w) && j < |w.rpc.jobs| && w.rpc.jobs[j].phase.InTry? && w.store.requests[j].phase.Done?
    ensures Enabled(w, Conclude(j))
  {
  }

  /** The steps of clients and channels are those of the request lifecycle. */
  lemma EventsProject(cfg: O.Config, w: World, kind: O.Kind, routed: bool, id: nat, settings: Settings, t: R.Step)
    ensures var w' := Next(cfg, w, Call(kind, routed));
            w'.rpc == R.Next(w.rpc, R.Invoke(routed)) && w'.kinds == w.kinds + [kind]
    ensures Enabled(w, Take(id, settings)) ==> Next(cfg, w, Take(id, settings)).rpc == R.Next(w.rpc, R.Accept(id))
    ensures Next(cfg, w, Cancel(id)).rpc == R.Next(w.rpc, R.CancelMessage(id))
    ensures t.Acknowledge? || t.CleanUp? || t.ReplyArrives? || t.Returned? || t.TimesOut? ==>
              Next(cfg, w, Rpc(t)).rpc == R.Next(w.rpc, t)
  {
  }

  lemma ReplyCompletes(cfg: O.Config, w: World, j: nat, b: ReplyBody)
    requires Inv(cfg, w) && Enabled(w, Conclude(j)) && w.store.requests[j].phase.verdict == Reply(b)
    requires w.rpc.jobs[j].id < |w.rpc.calls| && w.rpc.calls[w.rpc.jobs[j].id].completion == Pending
    ensures var id := w.rpc.jobs[j].id;
            var w' := Next(cfg, Next(cfg, w, Conclude(j)), Rpc(R.ReplyArrives(id, b)));
            id < |w'.rpc.calls| && w'.rpc.calls[id].completion == Replied(b)
  {
    var id, w1 := w.rpc.jobs[j].id, Next(cfg, w, Conclude(j));
    assert R.CallOk(w.rpc, id);
    assert w1.rpc.calls == w.rpc.calls && (id, b) in w1.rpc.sent;
  }

  /** The way back works: when a request has its verdict, a reply, and its client still waits, then
      publishing the reply and delivering it completes the call with it. */
  lemma ReplyReachesClient(cfg: O.Config, steps: seq<Step>, j: nat, b: ReplyBody)
    requires UniqueKeys(cfg.table) && Enabled(Run(cfg, Start(cfg), steps), Conclude(j))
    requires Run(cfg, Start(cfg), steps).store.requests[j].phase.verdict == Reply(b)
    requires var w := Run(cfg, Start(cfg), steps);
             w.rpc.jobs[j].id < |w.rpc.calls| && w.rpc.calls[w.rpc.jobs[j].id].completion == Pending
    ensures var w := Run(cfg, Start(cfg), steps);
            var id := w.rpc.jobs[j].id;
            var w' := Next(cfg, Next(cfg, w, Conclude(j)), Rpc(R.ReplyArrives(id, b)));
            id < |w'.rpc.calls| && w'.rpc.calls[id].completion == Replied(b)
  {
    O.StartOk(cfg);
    RunKeeps(cfg, Start(cfg), steps);
    ReplyCompletes(cfg, Run(cfg, Start(cfg), steps), j, b);
  }

  lemma CancelAborts(cfg: O.Config, w: World, id: nat)
    requires Inv(cfg, w) && id in w.rpc.ongoing
    ensures var (j, w') := (w.rpc.ongoing[id], Next(cfg, w, Cancel(id)));
            && j < |w.rpc.jobs| && w.rpc.jobs[j].id == id
            && j < |w'.store.requests| && w'.store.requests[j] == w.store.requests[j].(aborted := true)
  {
    assert w.rpc.ongoing[id] < |w.store.requests|;
  }

  /** So does a cancellation: it aborts the store request of the delivery that is ongoing under that
      id, which then replies neither a value nor an error, by `Outcomes.AbortCancels`. */
  lemma CancelReachesRequest(cfg: O.Config, steps: seq<Step>, id: nat)
    requires UniqueKeys(cfg.table) && id in Run(cfg, Start(cfg), steps).rpc.ongoing
    ensures var w := Run(cfg, Start(cfg), steps);
            var (j, w') := (w.rpc.ongoing[id], Next(cfg, w, Cancel(id)));
            && j < |w.rpc.jobs| && w.rpc.jobs[j].id == id
            && j < |w'.store.requests| && w'.store.requests[j] == w.store.requests[j].(aborted := true)
  {
    O.StartOk(cfg);
    RunKeeps(cfg, Start(cfg), steps);
    CancelAborts(cfg, Run(cfg, Start(cfg), steps), id);
  }

  /** What a completion tells the client of update `id`. */
  ghost predicate Tells(w: World, id: nat, c: Completion) {
    match c
    case Replied(Value(v)) => v.Some? && exists j, n :: Applied(w, id, j, n, v.value)
    case Replied(Error(_)) =>
      exists j :: 0 <= j < |w.rpc.jobs| && j < |w.store.requests| && w.rpc.jobs[j].id == id
                  && PutsBy(w.store.log, j, |w.store.log|) == 0
    case Faulted(NoReplica) => forall j :: 0 <= j < |w.rpc.jobs| ==> w.rpc.jobs[j].id != id
    case _ => true
  }

  lemma ReplyTells(cfg: O.Config, w: World, id: nat, j: nat, b: ReplyBody)
    requires Inv(cfg, w) && id < |w.kinds| && w.kinds[id].Update?
    requires j < |w.rpc.jobs| && w.rpc.jobs[j].id == id && w.rpc.jobs[j].reply == Some(b)
    ensures Tells(w, id, Replied(b))
  {
    assert Agree(w, j);
    HonestReplies(cfg, w.store, j);
    if b.Value? {
      var n := w.store.requests[j].phase.at.value;
      assert O.ValueAt(cfg, w.store.log, n) == w.store.log[n - 1].after;
      assert Applied(w, id, j, n, b.value.value);
    }
  }

  lemma CompletionTells(cfg: O.Config, w: World, id: nat)
    requires Inv(cfg, w) && id < |w.kinds| && w.kinds[id].Update?
    ensures Tells(w, id, w.rpc.calls[id].completion)
  {
    assert R.CallOk(w.rpc, id);
    var c := w.rpc.calls[id].completion;
    if c.Replied? {
      var j :| 0 <= j < |w.rpc.jobs| && w.rpc.jobs[j].id == id && w.rpc.jobs[j].reply == Some(c.body);
      ReplyTells(cfg, w, id, j, c.body);
    }
  }

  /** What the client of an update may conclude, over every interleaving of every part of the path:
      a value was stored by this call's own put; an error or the return of the message means that
      the call put nothing; and in no case did it put twice. */
  lemma ClientSeesTheTruth(cfg: O.Config, steps: seq<Step>, id: nat)
    requires UniqueKeys(cfg.table) && id < |Run(cfg, Start(cfg), steps).kinds|
    requires Run(cfg, Start(cfg), steps).kinds[id].Update?
    ensures var w := Run(cfg, Start(cfg), steps);
            && |w.rpc.calls| == |w.kinds| && |w.rpc.jobs| == |w.store.requests|
            && (forall i, j :: 0 <= i < j < |w.rpc.jobs| ==> w.rpc.jobs[i].id != w.rpc.jobs[j].id)
            && (forall j :: 0 <= j < |w.store.requests| ==> PutsBy(w.store.log, j, |w.store.log|) <= 1)
            && Tells(w, id, w.rpc.calls[id].completion)
  {
    O.StartOk(cfg);
    RunKeeps(cfg, Start(cfg), steps);
    var w := Run(cfg, Start(cfg), steps);
    forall j | 0 <= j < |w.store.requests| ensures PutsBy(w.store.log, j, |w.store.log|) <= 1 {
      HonestReplies(cfg, w.store, j);
    }
    CompletionTells(cfg, w, id);
  }
}

/** Requests from the client's table through the queue and the host and back, with every competing
    event: replies, returns, timeouts, cancellations. Correlation ids are distinct. */
module RpcLifecycle {
  import opened Basics
  import opened ServiceHost
  import opened RpcClient

  datatype Call = Call(registered: bool, completion: Completion)

  /** Where a delivery is: executing, replied to but not acked, settled, or past its finally block. */
  datatype Phase = InTry | Sent | Settled | Finished

  /** One dispatched delivery; the counters are what the channel has seen of it. */
  datatype Job = Job(
    id: nat, phase: Phase, aborted: bool, executions: nat, reply: Option<ReplyBody>, replies: nat, acks: nat, nacks: nat)

  /** `sent` are the replies that have been published; delivery does not use them up. */
  datatype World = World(
    calls: seq<Call>, queued: set<nat>, returned: set<nat>, jobs: seq<Job>, ongoing: map<nat, nat>,
    sent: set<(nat, ReplyBody)>)

  datatype Step =
    | Invoke(routed: bool)
    | Accept(id: nat)
    | Execute(j: nat, exit: Attempt, genericReturn: bool)
    | Acknowledge(j: nat)
    | CleanUp(j: nat)
    | CancelMessage(id: nat)
    | ReplyArrives(id: nat, body: ReplyBody)
    | Returned(id: nat)
    | TimesOut(id: nat)

  const START := World([], {}, {}, [], map[], {})

  /** The host looks at the job's own token, whatever the attempt says. */
  function VerdictIn(w: World, j: nat, a: Attempt, genericReturn: bool): Verdict
    requires j < |w.jobs|
  {
    Judge(a.(aborted := w.jobs[j].aborted), genericReturn)
  }

  predicate Enabled(w: World, s: Step) {
    match s
    case Invoke(_) => true
    case Accept(id) => id in w.queued
    case Execute(j, a, g) => j < |w.jobs| && w.jobs[j].phase == InTry && VerdictIn(w, j, a, g) != NackAndReply
    case Acknowledge(j) => j < |w.jobs| && w.jobs[j].phase == Sent
    case CleanUp(j) => j < |w.jobs| && w.jobs[j].phase == Settled
    case CancelMessage(_) => true
    case ReplyArrives(id, b) => (id, b) in w.sent && id < |w.calls|
    case Returned(id) => id in w.returned && id < |w.calls|
    case TimesOut(id) => id < |w.calls|
  }

  function Complete(c: Call, outcome: Completion): Call {
    if c.registered then c.(completion := Settle(c.completion, outcome)) else c
  }

  function AfterVerdict(w: World, j: nat, v: Verdict): World
    requires j < |w.jobs|
  {
    var job := w.jobs[j];
    match v
    case RunAgain => w.(jobs := w.jobs[j := job.(executions := job.executions + 1)])
    case Reply(b) =>
      w.(jobs := w.jobs[j := job.(phase := Sent, reply := Some(b), replies := job.replies + 1)], sent := w.sent + {(job.id, b)})
    case Fail => w.(jobs := w.jobs[j := job.(phase := Settled, nacks := job.nacks + 1)])
    case NackAndReply => w
  }

  function Next(w: World, s: Step): World {
    if !Enabled(w, s) then w
    else
      match s
      case Invoke(routed) =>
        var id := |w.calls|;
        w.(calls := w.calls + [Call(true, Pending)],
           queued := if routed then w.queued + {id} else w.queued,
           returned := if routed then w.returned else w.returned + {id})
      case Accept(id) =>
        w.(queued := w.queued - {id}, jobs := w.jobs + [Job(id, InTry, false, 0, None, 0, 0, 0)],
           ongoing := w.ongoing[id := |w.jobs|])
      case Execute(j, a, g) => AfterVerdict(w, j, VerdictIn(w, j, a, g))
      case Acknowledge(j) =>
        w.(jobs := w.jobs[j := w.jobs[j].(phase := Settled, acks := w.jobs[j].acks + 1)])
      case CleanUp(j) =>
        w.(jobs := w.jobs[j := w.jobs[j].(phase := Finished)], ongoing := w.ongoing - {w.jobs[j].id})
      case CancelMessage(id) =>
        if id in w.ongoing && w.ongoing[id] < |w.jobs|
        then w.(jobs := w.jobs[w.ongoing[id] := w.jobs[w.ongoing[id]].(aborted := true)]) else w
      case ReplyArrives(id, b) => w.(calls := w.calls[id := Complete(w.calls[id], Replied(b))])
      case Returned(id) => w.(calls := w.calls[id := Complete(w.calls[id], Faulted(NoReplica))])
      case TimesOut(id) =>
        w.(calls := w.calls[id := Complete(w.calls[id], Faulted(TimedOut)).(registered := false)])
  }

  function Run(w: World, steps: seq<Step>): World
    decreases |steps|
  {
    if steps == [] then w else Run(Next(w, steps[0]), steps[1..])
  }

  // ---- The invariant ----

  /** A delivery is settled once it has left the try block, and exactly once: acked after exactly
      one reply, or nacked with none. */
  predicate JobOk(job: Job) {
    && job.replies == (if job.reply.Some? then 1 else 0)
    && job.reply != Some(Empty)
    && match job.phase
       case InTry => job.reply.None? && job.acks == 0 && job.nacks == 0
       case Sent => job.reply.Some? && job.acks == 0 && job.nacks == 0
       case _ => job.acks + job.nacks == 1 && job.acks == job.replies
  }

  predicate JobsOk(w: World) {
    && (forall j :: 0 <= j < |w.jobs| ==> JobOk(w.jobs[j]) && w.jobs[j].id < |w.calls|)
    && (forall i, j :: 0 <= i < j < |w.jobs| ==> w.jobs[i].id != w.jobs[j].id)
    && (forall j :: 0 <= j < |w.jobs| ==> w.jobs[j].id !in w.queued && w.jobs[j].id !in w.returned)
  }

  /** The ongoing table holds exactly the deliveries that have not passed their finally block. */
  predicate OngoingOk(w: World) {
    && (forall j :: 0 <= j < |w.jobs| && w.jobs[j].phase != Finished ==>
          w.jobs[j].id in w.ongoing && w.ongoing[w.jobs[j].id] == j)
    && (forall id :: id in w.ongoing ==>
          w.ongoing[id] < |w.jobs| && w.jobs[w.ongoing[id]].id == id && w.jobs[w.ongoing[id]].phase != Finished)
  }

  predicate Produced(w: World, id: nat, b: ReplyBody) {
    exists j :: 0 <= j < |w.jobs| && w.jobs[j].id == id && w.jobs[j].reply == Some(b)
  }

  predicate CallOk(w: World, id: nat)
    requires id < |w.calls|
  {
    match w.calls[id].completion
    case Pending => w.calls[id].registered
    case Replied(b) => Produced(w, id, b)
    case Faulted(NoReplica) => id in w.returned
    case Faulted(TimedOut) => !w.calls[id].registered
  }

  ghost predicate Inv(w: World) {
    && (forall id :: id in w.queued || id in w.returned ==> id < |w.calls|)
    && w.queued !! w.returned
    && JobsOk(w)
    && OngoingOk(w)
    && (forall id, b :: (id, b) in w.sent ==> Produced(w, id, b))
    && (forall id :: 0 <= id < |w.calls| ==> CallOk(w, id))
  }

  /** Changing job `j` keeps what the others produced, and its own reply. */
  lemma ProducedStable(w: World, w': World, id: nat, b: ReplyBody)
    requires Produced(w, id, b) && |w.jobs| <= |w'.jobs|
    requires forall j :: 0 <= j < |w.jobs| ==>
               w'.jobs[j].id == w.jobs[j].id && (w.jobs[j].reply.Some? ==> w'.jobs[j].reply == w.jobs[j].reply)
    ensures Produced(w', id, b)
  {
    var j :| 0 <= j < |w.jobs| && w.jobs[j].id == id && w.jobs[j].reply == Some(b);
    assert w'.jobs[j].reply == Some(b);
  }

  /** `w'` is `w` after a step of the host on job `j`, which it leaves as `job`. */
  ghost predicate IsJobStep(w: World, w': World, j: nat, job: Job) {
    && j < |w.jobs|
    && JobOk(job) && job.id == w.jobs[j].id
    && (w.jobs[j].reply.Some? ==> job.reply == w.jobs[j].reply)
    && (w.jobs[j].phase != Finished || job.phase == Finished)
    && w' == w.(jobs := w.jobs[j := job], sent := w'.sent, ongoing := w'.ongoing)
    && w'.ongoing == (if job.phase == Finished then w.ongoing - {job.id} else w.ongoing)
    && (forall x :: x in w'.sent ==> x in w.sent || (x.0 == job.id && job.reply == Some(x.1)))
  }

  lemma JobStepKeepsJobs(w: World, w': World, j: nat, job: Job)
    requires JobsOk(w) && IsJobStep(w, w', j, job)
    ensures JobsOk(w')
  {
  }

  lemma JobStepKeepsTable(w: World, w': World, j: nat, job: Job)
    requires JobsOk(w) && OngoingOk(w) && IsJobStep(w, w', j, job)
    ensures OngoingOk(w')
  {
    forall i | 0 <= i < |w'.jobs| && w'.jobs[i].phase != Finished
      ensures w'.jobs[i].id in w'.ongoing && w'.ongoing[w'.jobs[i].id] == i {
      assert w.jobs[i].phase != Finished && w'.jobs[i].id == w.jobs[i].id;
      assert i != j ==> w.jobs[i].id != w.jobs[j].id;
    }
  }

  lemma JobStepKeepsReplies(w: World, w': World, j: nat, job: Job, id: nat, b: ReplyBody)
    requires IsJobStep(w, w', j, job)
    requires Produced(w, id, b) || (id == job.id && job.reply == Some(b))
    ensures Produced(w', id, b)
  {
    if Produced(w, id, b) {
      ProducedStable(w, w', id, b);
    } else {
      assert w'.jobs[j].id == id && w'.jobs[j].reply == Some(b);
    }
  }

  lemma JobStepKeeps(w: World, w': World, j: nat, job: Job)
    requires Inv(w) && IsJobStep(w, w', j, job)
    ensures Inv(w')
  {
    JobStepKeepsJobs(w, w', j, job);
    JobStepKeepsTable(w, w', j, job);
    forall id, b | (id, b) in w'.sent ensures Produced(w', id, b) {
      JobStepKeepsReplies(w, w', j, job, id, b);
    }
    forall id | 0 <= id < |w'.calls| ensures CallOk(w', id) {
      assert CallOk(w, id);
      if w.calls[id].completion.Replied? {
        JobStepKeepsReplies(w, w', j, job, id, w.calls[id].completion.body);
      }
    }
  }

  /** Steps of the client on one call. */
  lemma CallStepKeeps(w: World, id: nat, c: Call)
    requires Inv(w) && id < |w.calls|
    requires CallOk(w.(calls := w.calls[id := c]), id)
    ensures Inv(w.(calls := w.calls[id := c]))
  {
    var w' := w.(calls := w.calls[id := c]);
    forall x | 0 <= x < |w'.calls| ensures CallOk(w', x) {
      if x != id {
        assert CallOk(w, x);
        if w.calls[x].completion.Replied? {
          ProducedStable(w, w', x, w.calls[x].completion.body);
        }
      }
    }
    forall x, b | (x, b) in w'.sent ensures Produced(w', x, b) {
      ProducedStable(w, w', x, b);
    }
  }

  /** An outcome that is justified reaches call `id`. */
  lemma OutcomeKeeps(w: World, id: nat, outcome: Completion, registered: bool)
    requires Inv(w) && id < |w.calls| && (registered ==> w.calls[id].registered)
    requires match outcome
             case Pending => false
             case Replied(b) => Produced(w, id, b)
             case Faulted(NoReplica) => id in w.returned
             case Faulted(TimedOut) => !registered
    ensures Inv(w.(calls := w.calls[id := Complete(w.calls[id], outcome).(registered := registered)]))
  {
    var c := Complete(w.calls[id], outcome).(registered := registered);
    var w' := w.(calls := w.calls[id := c]);
    assert CallOk(w, id);
    if c.completion.Replied? {
      ProducedStable(w, w', id, c.completion.body);
    }
    CallStepKeeps(w, id, c);
  }

  lemma AcceptKeepsTable(w: World, id: nat)
    requires Inv(w) && Enabled(w, Accept(id))
    ensures JobsOk(Next(w, Accept(id))) && OngoingOk(Next(w, Accept(id)))
  {
    forall j | 0 <= j < |w.jobs| ensures w.jobs[j].id != id {
      assert w.jobs[j].id !in w.queued;
    }
  }

  /** Jobs are only added, and the client's side stays as it is. */
  lemma MoreJobsKeepReplies(w: World, w': World)
    requires Inv(w) && w'.calls == w.calls && w'.sent == w.sent && w'.returned == w.returned
    requires |w.jobs| <= |w'.jobs| && forall j :: 0 <= j < |w.jobs| ==> w'.jobs[j] == w.jobs[j]
    ensures forall x, b :: (x, b) in w'.sent ==> Produced(w', x, b)
    ensures forall x :: 0 <= x < |w'.calls| ==> CallOk(w', x)
  {
    forall x, b | (x, b) in w'.sent ensures Produced(w', x, b) {
      ProducedStable(w, w', x, b);
    }
    forall x | 0 <= x < |w'.calls| ensures CallOk(w', x) {
      assert CallOk(w, x);
      if w.calls[x].completion.Replied? {
        ProducedStable(w, w', x, w.calls[x].completion.body);
      }
    }
  }

  lemma AcceptKeeps(w: World, id: nat)
    requires Inv(w) && Enabled(w, Accept(id))
    ensures Inv(Next(w, Accept(id)))
  {
    AcceptKeepsTable(w, id);
    MoreJobsKeepReplies(w, Next(w, Accept(id)));
  }

  lemma InvokeKeeps(w: World, routed: bool)
    requires Inv(w)
    ensures Inv(Next(w, Invoke(routed)))
  {
    var w' := Next(w, Invoke(routed));
    forall x, b | (x, b) in w'.sent ensures Produced(w', x, b) {
      ProducedStable(w, w', x, b);
    }
    forall x | 0 <= x < |w'.calls| ensures CallOk(w', x) {
      if x < |w.calls| {
        assert CallOk(w, x);
        if w.calls[x].completion.Replied? {
          ProducedStable(w, w', x, w.calls[x].completion.body);
        }
      }
    }
  }

  /** A job concludes with any verdict but the rejecting one, which would settle it twice. */
  lemma VerdictKeeps(w: World, j: nat, v: Verdict)
    requires Inv(w) && j < |w.jobs| && w.jobs[j].phase == InTry
    requires v != NackAndReply && v != Reply(Empty)
    ensures Inv(AfterVerdict(w, j, v))
  {
    var w' := AfterVerdict(w, j, v);
    assert JobOk(w.jobs[j]);
    JobStepKeeps(w, w', j, w'.jobs[j]);
  }

  lemma CancelKeeps(w: World, id: nat)
    requires Inv(w)
    ensures Inv(Next(w, CancelMessage(id)))
  {
    if id in w.ongoing {
      var j := w.ongoing[id];
      assert JobOk(w.jobs[j]);
      JobStepKeeps(w, Next(w, CancelMessage(id)), j, w.jobs[j].(aborted := true));
    }
  }

  lemma NextKeeps(w: World, s: Step)
    requires Inv(w)
    ensures Inv(Next(w, s))
  {
    if Enabled(w, s) {
      match s
      case Invoke(routed) => InvokeKeeps(w, routed);
      case Accept(id) => AcceptKeeps(w, id);
      case Execute(j, a, g) => VerdictKeeps(w, j, VerdictIn(w, j, a, g));
      case Acknowledge(j) =>
        assert JobOk(w.jobs[j]);
        JobStepKeeps(w, Next(w, s), j, Next(w, s).jobs[j]);
      case CleanUp(j) =>
        assert JobOk(w.jobs[j]);
        JobStepKeeps(w, Next(w, s), j, Next(w, s).jobs[j]);
      case CancelMessage(id) => CancelKeeps(w, id);
      case ReplyArrives(id, b) => OutcomeKeeps(w, id, Replied(b), w.calls[id].registered);
      case Returned(id) => OutcomeKeeps(w, id, Faulted(NoReplica), w.calls[id].registered);
      case TimesOut(id) => OutcomeKeeps(w, id, Faulted(TimedOut), false);
    }
  }

  lemma {:induction false} RunKeeps(w: World, steps: seq<Step>)
    requires Inv(w)
    ensures Inv(Run(w, steps))
    decreases |steps|
  {
    if steps != [] {
      NextKeeps(w, steps[0]);
      RunKeeps(Next(w, steps[0]), steps[1..]);
    }
  }

  // ---- Main results ----

  /** The event that completes call `id` with outcome `c`. */
  function Cause(id: nat, c: Completion): Step
    requires c != Pending
  {
    match c
    case Replied(b) => ReplyArrives(id, b)
    case Faulted(NoReplica) => Returned(id)
    case Faulted(TimedOut) => TimesOut(id)
  }

  lemma CauseOfStep(w: World, s: Step, id: nat)
    requires id < |Next(w, s).calls| && Next(w, s).calls[id].completion != Pending
    requires id < |w.calls| ==> w.calls[id].completion == Pending
    ensures s == Cause(id, Next(w, s).calls[id].completion)
  {
  }

  /** A call completes with an outcome only by the event of that outcome. */
  lemma {:induction false} CompletionHasCause(w: World, steps: seq<Step>, id: nat)
    requires id < |Run(w, steps).calls| && Run(w, steps).calls[id].completion != Pending
    requires id < |w.calls| ==> w.calls[id].completion == Pending
    ensures Cause(id, Run(w, steps).calls[id].completion) in steps
    decreases |steps|
  {
    var w1 := Next(w, steps[0]);
    if id < |w1.calls| && w1.calls[id].completion != Pending {
      CauseOfStep(w, steps[0], id);
      CompletesOnce(w1, steps[1..], id);
    } else {
      CompletionHasCause(w1, steps[1..], id);
    }
  }

  /** Reply correlation: a completed call holds a reply that an execution of that very request
      produced and that has arrived, or the return of an unroutable request, or its own timeout; and
      the event of that outcome has happened. */
  lemma RepliesCorrelate(steps: seq<Step>, id: nat)
    requires id < |Run(START, steps).calls|
    ensures var w := Run(START, steps);
            var c := w.calls[id].completion;
            && (c != Pending ==> Cause(id, c) in steps)
            && match c
               case Pending => true
               case Replied(b) => exists j :: 0 <= j < |w.jobs| && w.jobs[j].id == id && w.jobs[j].reply == Some(b)
               case Faulted(NoReplica) => id in w.returned && forall j :: 0 <= j < |w.jobs| ==> w.jobs[j].id != id
               case Faulted(TimedOut) => !w.calls[id].registered
  {
    RunKeeps(START, steps);
    assert CallOk(Run(START, steps), id);
    if Run(START, steps).calls[id].completion != Pending {
      CompletionHasCause(START, steps, id);
    }
  }

  /** The converse, at any time of any run: a reply, return or timeout that comes to a pending call
      completes it with exactly that outcome, and touches no other call. */
  lemma EventsComplete(steps: seq<Step>, id: nat, outcome: Completion)
    requires id < |Run(START, steps).calls| && Run(START, steps).calls[id].completion == Pending
    requires outcome != Pending && Enabled(Run(START, steps), Cause(id, outcome))
    ensures var (w, w') := (Run(START, steps), Next(Run(START, steps), Cause(id, outcome)));
            && |w'.calls| == |w.calls| && w'.calls[id].completion == outcome
            && forall x :: 0 <= x < |w.calls| && x != id ==> w'.calls[x] == w.calls[x]
  {
    RunKeeps(START, steps);
    assert CallOk(Run(START, steps), id);
  }

  /** Nothing stands in the way of the events: a published reply can arrive, a returned message come back
      and a call time out, and a delivery can be taken, executed, acked and cleaned up in turn. */
  lemma EventsAreEnabled(w: World, id: nat, b: ReplyBody, j: nat)
    ensures id < |w.calls| ==> Enabled(w, TimesOut(id))
    ensures id < |w.calls| && (id, b) in w.sent ==> Enabled(w, ReplyArrives(id, b))
    ensures id < |w.calls| && id in w.returned ==> Enabled(w, Step.Returned(id))
    ensures id in w.queued ==> Enabled(w, Accept(id))
    ensures j < |w.jobs| ==>
              match w.jobs[j].phase
              case InTry => forall a, g :: VerdictIn(w, j, a, g) != NackAndReply ==> Enabled(w, Execute(j, a, g))
              case Sent => Enabled(w, Acknowledge(j))
              case Settled => Enabled(w, CleanUp(j))
              case Finished => true
  {
  }

  /** What each step of the host and of the calling client does to its own call, delivery and table
      entry. */
  lemma StepsMean(w: World, j: nat, id: nat, routed: bool)
    ensures var w' := Next(w, Invoke(routed));
            && w'.calls == w.calls + [Call(true, Pending)]
            && (if routed then w'.queued == w.queued + {|w.calls|} && w'.returned == w.returned
                else w'.queued == w.queued && w'.returned == w.returned + {|w.calls|})
    ensures id in w.queued ==>
              var w' := Next(w, Accept(id));
              && id !in w'.queued && w'.ongoing == w.ongoing[id := |w.jobs|]
              && w'.jobs == w.jobs + [Job(id, InTry, false, 0, None, 0, 0, 0)]
    ensures Enabled(w, Acknowledge(j)) ==>
              Next(w, Acknowledge(j)).jobs[j] == w.jobs[j].(phase := Settled, acks := w.jobs[j].acks + 1)
    ensures Enabled(w, CleanUp(j)) ==>
              Next(w, CleanUp(j)).jobs[j].phase == Finished && w.jobs[j].id !in Next(w, CleanUp(j)).ongoing
  {
  }

  /** What an execution does to its delivery, from the fields it leaves: one that asks for another one
      leaves it executing, one that throws gets it nacked, and any other publishes its reply. */
  lemma ExecuteMeans(w: World, j: nat, exit: Attempt, genericReturn: bool)
    requires Enabled(w, Execute(j, exit, genericReturn))
    ensures var (job, w') := (w.jobs[j], Next(w, Execute(j, exit, genericReturn)));
            var x := exit.exit.ctx.executed;
            && (exit.exit.threw ==> w'.jobs[j] == job.(phase := Settled, nacks := job.nacks + 1))
            && (!exit.exit.threw && job.aborted ==> Replies(w, w', j, Canceled))
            && (!exit.exit.threw && !job.aborted && !Unhandled(x) ==> Replies(w, w', j, Value(x.result)))
            && (!exit.exit.threw && !job.aborted && Unhandled(x) && x.strategy.ReExecute? ==>
                  w'.jobs[j] == job.(executions := job.executions + 1))
            && (!exit.exit.threw && !job.aborted && Unhandled(x) && x.strategy.PropagateToClient? ==>
                  Replies(w, w', j, Error(x.exception.value)))
            && (!exit.exit.threw && !job.aborted && Unhandled(x) && x.strategy.ReturnDefault? ==>
                  if genericReturn then w'.jobs[j] == job.(phase := Settled, nacks := job.nacks + 1)
                  else Replies(w, w', j, Value(None)))
  {
  }

  /** Job `j` has now replied `b`, and the reply is on its way to the client of its request. */
  ghost predicate Replies(w: World, w': World, j: nat, b: ReplyBody) {
    && j < |w.jobs| && j < |w'.jobs|
    && w'.jobs[j] == w.jobs[j].(phase := Sent, reply := Some(b), replies := w.jobs[j].replies + 1)
    && w'.sent == w.sent + {(w.jobs[j].id, b)}
  }

  /** A call that the client reports as a success was served: its request's one reply is a value. */
  lemma SuccessMeansServed(steps: seq<Step>, id: nat)
    requires id < |Run(START, steps).calls| && Run(START, steps).calls[id].completion != Pending
    requires StatusOf(Run(START, steps).calls[id].completion) == Success
    ensures var w := Run(START, steps);
            exists j :: 0 <= j < |w.jobs| && w.jobs[j].id == id && w.jobs[j].replies == 1 && w.jobs[j].nacks == 0
                        && w.jobs[j].reply.Some? && w.jobs[j].reply.value.Value?
  {
    var w := Run(START, steps);
    RunKeeps(START, steps);
    assert CallOk(w, id);
    var j :| 0 <= j < |w.jobs| && w.jobs[j].id == id && w.jobs[j].reply == Some(w.calls[id].completion.body);
    assert JobOk(w.jobs[j]);
  }

  /** A completion never changes: later replies, returns and timeouts leave it as it is. */
  lemma {:induction false} CompletesOnce(w: World, steps: seq<Step>, id: nat)
    requires id < |w.calls| && w.calls[id].completion != Pending
    ensures id < |Run(w, steps).calls| && Run(w, steps).calls[id].completion == w.calls[id].completion
    decreases |steps|
  {
    if steps != [] {
      CompletesOnce(Next(w, steps[0]), steps[1..], id);
    }
  }

  /** Exactly one settlement: no request is dispatched twice; one that has passed its finally block
      was acked after exactly one reply, or nacked with none, and none is ever settled twice. The
      ongoing table's keys are exactly the requests that have not passed it. */
  lemma SettledExactlyOnce(steps: seq<Step>)
    ensures var w := Run(START, steps);
            && (forall i, j :: 0 <= i < j < |w.jobs| ==> w.jobs[i].id != w.jobs[j].id)
            && (forall j :: 0 <= j < |w.jobs| ==>
                  var job := w.jobs[j];
                  && job.acks + job.nacks <= 1 && job.replies <= 1
                  && (job.phase == Finished ==> job.acks + job.nacks == 1 && job.acks == job.replies))
            && (forall id :: id in w.ongoing <==>
                  exists j :: 0 <= j < |w.jobs| && w.jobs[j].id == id && w.jobs[j].phase != Finished)
  {
    RunKeeps(START, steps);
    var w := Run(START, steps);
    forall id | id in w.ongoing
      ensures exists j :: 0 <= j < |w.jobs| && w.jobs[j].id == id && w.jobs[j].phase != Finished {
      assert w.jobs[w.ongoing[id]].id == id;
    }
  }

  /** A cancellation message aborts its own request, while that one is ongoing, and no other. */
  lemma CancelsOnlyItsOwn(steps: seq<Step>, id: nat, j: nat)
    requires j < |Run(START, steps).jobs|
    ensures var w := Run(START, steps);
            var w' := Next(w, CancelMessage(id));
            w'.jobs[j].aborted <==> w.jobs[j].aborted || (w.jobs[j].id == id && w.jobs[j].phase != Finished)
  {
    RunKeeps(START, steps);
  }
}

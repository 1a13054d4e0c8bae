/** Many dispatchers and one broker: where every work item is, over whole runs. */
module WorkConservation {
  import opened Basics
  import opened WorkItems

  datatype Batch = Batch(items: seq<Item>, handled: bool)

  /** `unacked` (tag to message) and `settled` are the broker's view of this channel; the rest is the
      dispatcher's. `stranded` are deliveries that nobody will settle any more. When its channel is
      closed the dispatcher goes on with the items it has, but no settlement gets through. */
  datatype Dispatcher = Dispatcher(
    open: bool, running: bool, nextTag: nat, unacked: map<nat, int>, settled: set<nat>,
    buffer: seq<Item>, filling: seq<Item>, batches: seq<Batch>, stranded: seq<Item>)

  /** `violated` records a settlement of a delivery that the broker did not have outstanding. */
  datatype World = World(
    options: Options, posted: multiset<int>, ready: multiset<int>, acked: multiset<int>,
    dispatchers: seq<Dispatcher>, violated: bool)

  datatype Step =
    | Post(msg: int)
    | Join
    | Deliver(i: nat, msg: int)
    | Take(i: nat)
    | Dispatch(i: nat)
    | Handle(i: nat, b: nat, done: seq<bool>)
    | Settle(i: nat, b: nat, sent: bool)
    | CancelBatch(i: nat, b: nat)
    | FinishRound(i: nat)
    | Stop(i: nat)
    | Close(i: nat)

  const NEW_DISPATCHER := Dispatcher(true, true, 0, map[], {}, [], [], [], [])

  /** The messages of the outstanding tags below `n`. */
  function Messages(unacked: map<nat, int>, n: nat): multiset<int> {
    if n == 0 then multiset{}
    else Messages(unacked, n - 1) + (if n - 1 in unacked then multiset{unacked[n - 1]} else multiset{})
  }

  function AsBatches(chunks: seq<seq<Item>>): seq<Batch> {
    if chunks == [] then [] else [Batch(chunks[0], false)] + AsBatches(chunks[1..])
  }

  function Flag(items: seq<Item>, done: seq<bool>): seq<Item>
    requires |done| == |items|
  {
    if items == [] then [] else [items[0].(isDone := done[0])] + Flag(items[1..], done[1..])
  }

  predicate Enabled(w: World, s: Step) {
    match s
    case Post(_) => true
    case Join => true
    case Deliver(i, m) => i < |w.dispatchers| && w.dispatchers[i].open && m in w.ready
    case Take(i) =>
      i < |w.dispatchers|
      && var d := w.dispatchers[i];
         d.running && d.buffer != [] && d.batches == []
         && |d.filling| < w.options.parallelism * w.options.batchSize
    case Dispatch(i) =>
      i < |w.dispatchers| && w.options.batchSize > 0
      && var d := w.dispatchers[i]; d.running && d.filling != [] && d.batches == []
    case Handle(i, b, done) =>
      i < |w.dispatchers|
      && var d := w.dispatchers[i];
         b < |d.batches| && !d.batches[b].handled && |done| == |d.batches[b].items|
    case Settle(i, b, sent) =>
      i < |w.dispatchers|
      && var d := w.dispatchers[i];
         (sent ==> d.open) && b < |d.batches| && d.batches[b].handled && d.batches[b].items != []
    case CancelBatch(i, b) =>
      i < |w.dispatchers|
      && var d := w.dispatchers[i]; b < |d.batches| && !d.batches[b].handled
    case FinishRound(i) =>
      i < |w.dispatchers|
      && forall b :: 0 <= b < |w.dispatchers[i].batches| ==> w.dispatchers[i].batches[b].items == []
    case Stop(i) => i < |w.dispatchers|
    case Close(i) => i < |w.dispatchers| && w.dispatchers[i].open
  }

  /** `OnNext`: a full buffer nacks with requeue at once; a stopped dispatcher no longer observes. */
  function Receive(o: Options, d: Dispatcher, m: int): Dispatcher {
    var x := Delivery(d.nextTag, m);
    if !d.running then
      d.(nextTag := d.nextTag + 1, unacked := d.unacked[x.tag := m], stranded := d.stranded + [Item(x, false)])
    else if |d.buffer| < o.bufferSize then
      d.(nextTag := d.nextTag + 1, unacked := d.unacked[x.tag := m], buffer := d.buffer + [Item(x, false)])
    else d.(nextTag := d.nextTag + 1, settled := d.settled + {x.tag})
  }

  predicate Refuses(o: Options, d: Dispatcher) {
    d.running && |d.buffer| >= o.bufferSize
  }

  predicate IsOutstanding(d: Dispatcher, x: Delivery) {
    x.tag in d.unacked && d.unacked[x.tag] == x.msg && x.tag !in d.settled
  }

  /** The dispatcher after its batch `b` has lost its first item. */
  function DropFirst(d: Dispatcher, b: nat): Dispatcher
    requires b < |d.batches| && d.batches[b].items != []
  {
    d.(batches := d.batches[b := d.batches[b].(items := d.batches[b].items[1..])])
  }

  /** One item of `SendAck`; a settlement that throws leaves the item to nobody. */
  function SettleFirst(d: Dispatcher, b: nat, sent: bool): Dispatcher
    requires b < |d.batches| && d.batches[b].items != []
  {
    var item := d.batches[b].items[0];
    if sent
    then DropFirst(d, b).(unacked := d.unacked - {item.d.tag}, settled := d.settled + {item.d.tag})
    else DropFirst(d, b).(stranded := d.stranded + [item])
  }

  function Next(w: World, s: Step): World {
    if !Enabled(w, s) then w
    else
      match s
      case Post(m) => w.(posted := w.posted + multiset{m}, ready := w.ready + multiset{m})
      case Join => w.(dispatchers := w.dispatchers + [NEW_DISPATCHER])
      case Deliver(i, m) =>
        var d := w.dispatchers[i];
        w.(ready := if Refuses(w.options, d) then w.ready else w.ready - multiset{m},
           dispatchers := w.dispatchers[i := Receive(w.options, d, m)])
      case Take(i) =>
        var d := w.dispatchers[i];
        w.(dispatchers := w.dispatchers[i := d.(buffer := d.buffer[1..], filling := d.filling + [d.buffer[0]])])
      case Dispatch(i) =>
        var d := w.dispatchers[i];
        var bs := AsBatches(Chunks(d.filling, w.options.batchSize));
        w.(dispatchers := w.dispatchers[i := d.(filling := [], batches := bs)])
      case Handle(i, b, done) =>
        var d := w.dispatchers[i];
        var items := Flag(d.batches[b].items, done);
        w.(dispatchers := w.dispatchers[i := d.(batches := d.batches[b := Batch(items, true)])])
      case Settle(i, b, sent) =>
        var d := w.dispatchers[i];
        var item := d.batches[b].items[0];
        w.(dispatchers := w.dispatchers[i := SettleFirst(d, b, sent)],
           acked := if sent && item.isDone then w.acked + multiset{item.d.msg} else w.acked,
           ready := if sent && !item.isDone then w.ready + multiset{item.d.msg} else w.ready,
           violated := w.violated || (sent && !IsOutstanding(d, item.d)))
      case CancelBatch(i, b) =>
        var d := w.dispatchers[i];
        w.(dispatchers := w.dispatchers[i :=
             d.(batches := d.batches[b := Batch([], true)], stranded := d.stranded + d.batches[b].items)])
      case FinishRound(i) => w.(dispatchers := w.dispatchers[i := w.dispatchers[i].(batches := [])])
      case Stop(i) => w.(dispatchers := w.dispatchers[i := w.dispatchers[i].(running := false)])
      case Close(i) =>
        var d := w.dispatchers[i];
        w.(ready := w.ready + Messages(d.unacked, d.nextTag),
           dispatchers := w.dispatchers[i := d.(open := false, unacked := map[])])
  }

  function Run(w: World, steps: seq<Step>): World
    decreases |steps|
  {
    if steps == [] then w else Run(Next(w, steps[0]), steps[1..])
  }

  // ---- The invariant ----

  function Count(items: seq<Item>, x: Delivery): nat {
    if items == [] then 0 else (if items[0].d == x then 1 else 0) + Count(items[1..], x)
  }

  function CountBatches(bs: seq<Batch>, x: Delivery): nat {
    if bs == [] then 0 else Count(bs[0].items, x) + CountBatches(bs[1..], x)
  }

  /** In how many places dispatcher `d` holds delivery `x`. */
  function Places(d: Dispatcher, x: Delivery): nat {
    Count(d.buffer, x) + Count(d.filling, x) + CountBatches(d.batches, x) + Count(d.stranded, x)
  }

  /** How many of the outstanding tags below `n` carry message `m`. */
  function Out(unacked: map<nat, int>, n: nat, m: int): nat {
    if n == 0 then 0 else Out(unacked, n - 1, m) + (if n - 1 in unacked && unacked[n - 1] == m then 1 else 0)
  }

  function TotalOut(ds: seq<Dispatcher>, m: int): nat {
    if ds == [] then 0
    else
      var d := ds[|ds| - 1];
      TotalOut(ds[..|ds| - 1], m) + Out(d.unacked, d.nextTag, m)
  }

  /** A delivery that the broker has outstanding on this channel is held in exactly one place, and
      while the channel is open nothing else is held. What a dispatcher still holds after that was
      never settled, and is held once, too. */
  ghost predicate PlaceOk(d: Dispatcher, x: Delivery) {
    && Places(d, x) <= 1
    && (IsOutstanding(d, x) ==> Places(d, x) == 1)
    && (Places(d, x) == 1 ==> x.tag < d.nextTag && x.tag !in d.settled && (d.open ==> IsOutstanding(d, x)))
  }

  /** No tag is both settled and outstanding, and a closed channel has nothing outstanding. */
  ghost predicate DispatcherOk(o: Options, d: Dispatcher) {
    && (forall x :: PlaceOk(d, x))
    && (forall t :: t in d.unacked ==> t < d.nextTag && t !in d.settled)
    && (forall t :: t in d.settled ==> t < d.nextTag)
    && (!d.open ==> d.unacked == map[])
    && |d.buffer| <= o.bufferSize
  }

  /** Every posted message is, with its multiplicity, ready, acked or outstanding on some channel. */
  ghost predicate Conserved(w: World) {
    forall m :: w.posted[m] == w.ready[m] + w.acked[m] + TotalOut(w.dispatchers, m)
  }

  ghost predicate Inv(w: World) {
    && (forall i :: 0 <= i < |w.dispatchers| ==> DispatcherOk(w.options, w.dispatchers[i]))
    && Conserved(w)
    && !w.violated
  }

  // ---- What the steps do to a dispatcher ----

  /** A delivery to a running dispatcher is buffered last if there is room, and is then outstanding; if
      there is none it is back at the broker, as by `OnNext`. */
  lemma DeliverMeans(w: World, i: nat, m: int)
    requires Enabled(w, Deliver(i, m)) && w.dispatchers[i].running
    ensures var (d, w') := (w.dispatchers[i], Next(w, Deliver(i, m)));
            var d' := w'.dispatchers[i];
            if |d.buffer| < w.options.bufferSize
            then d'.buffer == d.buffer + [Item(Delivery(d.nextTag, m), false)] && w'.ready == w.ready - multiset{m}
                 && d'.unacked == d.unacked[d.nextTag := m]
            else d'.buffer == d.buffer && w'.ready == w.ready && d'.unacked == d.unacked
  {
  }

  /** A stopped dispatcher observes no deliveries and takes nothing any more. */
  lemma StopMeans(w: World, i: nat, m: int)
    requires i < |w.dispatchers|
    ensures var w' := Next(w, Stop(i));
            && !Enabled(w', Take(i)) && !Enabled(w', Dispatch(i))
            && (Enabled(w', Deliver(i, m)) ==> Next(w', Deliver(i, m)).dispatchers[i].buffer == w.dispatchers[i].buffer)
  {
  }

  /** What is posted is ready; a joining dispatcher starts empty; a closed channel gives back what is
      outstanding on it and leaves its dispatcher the items; a cancelled batch is settled by nobody; a
      finished round makes room for the next one. */
  lemma OthersMean(w: World, i: nat, b: nat, m: int)
    ensures Next(w, Post(m)) == w.(posted := w.posted + multiset{m}, ready := w.ready + multiset{m})
    ensures Next(w, Join).dispatchers == w.dispatchers + [Dispatcher(true, true, 0, map[], {}, [], [], [], [])]
    ensures Enabled(w, Close(i)) ==>
              var (d, w') := (w.dispatchers[i], Next(w, Close(i)));
              && w'.dispatchers[i] == d.(open := false, unacked := map[])
              && w'.ready[m] == w.ready[m] + Out(d.unacked, d.nextTag, m)
    ensures Enabled(w, CancelBatch(i, b)) ==>
              var (d, d') := (w.dispatchers[i], Next(w, CancelBatch(i, b)).dispatchers[i]);
              && d'.stranded == d.stranded + d.batches[b].items
              && |d'.batches| == |d.batches| && d'.batches[b].items == [] && d'.unacked == d.unacked
    ensures Enabled(w, FinishRound(i)) ==> Next(w, FinishRound(i)).dispatchers[i] == w.dispatchers[i].(batches := [])
  {
    if Enabled(w, Close(i)) {
      OutIsMessages(w.dispatchers[i].unacked, w.dispatchers[i].nextTag, m);
    }
  }

  lemma {:induction false} BatchesAre(chunks: seq<seq<Item>>)
    ensures |AsBatches(chunks)| == |chunks|
    ensures forall b :: 0 <= b < |chunks| ==> AsBatches(chunks)[b].items == chunks[b] && !AsBatches(chunks)[b].handled
  {
    if chunks != [] { BatchesAre(chunks[1..]); }
  }

  /** While the round has room, a turn of the fill loop takes the oldest buffered item; the round ends
      with one unhandled batch for each slice of what was taken. */
  lemma FillMeans(w: World, i: nat)
    ensures i < |w.dispatchers| ==>
              var d := w.dispatchers[i];
              Enabled(w, Take(i)) <==> d.running && d.buffer != [] && d.batches == []
                                       && |d.filling| < w.options.parallelism * w.options.batchSize
    ensures Enabled(w, Take(i)) ==>
              var (d, d') := (w.dispatchers[i], Next(w, Take(i)).dispatchers[i]);
              d'.filling == d.filling + [d.buffer[0]] && d.buffer == [d.buffer[0]] + d'.buffer
    ensures Enabled(w, Dispatch(i)) ==>
              var (d, d') := (w.dispatchers[i], Next(w, Dispatch(i)).dispatchers[i]);
              var slices := Chunks(d.filling, w.options.batchSize);
              && d'.filling == [] && |d'.batches| == |slices|
              && forall b :: 0 <= b < |slices| ==> d'.batches[b].items == slices[b] && !d'.batches[b].handled
  {
    if Enabled(w, Dispatch(i)) {
      BatchesAre(Chunks(w.dispatchers[i].filling, w.options.batchSize));
    }
  }

  lemma {:induction false} FlagsAre(items: seq<Item>, done: seq<bool>)
    requires |done| == |items|
    ensures |Flag(items, done)| == |items|
    ensures forall j :: 0 <= j < |items| ==> Flag(items, done)[j].d == items[j].d && Flag(items, done)[j].isDone == done[j]
  {
    if items != [] { FlagsAre(items[1..], done[1..]); }
  }

  /** The handler sets the flag of each item of its batch, and nothing else of it. */
  lemma HandleMeans(w: World, i: nat, b: nat, done: seq<bool>)
    requires Enabled(w, Handle(i, b, done))
    ensures var (batch, d') := (w.dispatchers[i].batches[b], Next(w, Handle(i, b, done)).dispatchers[i]);
            && b < |d'.batches| && d'.batches[b].handled && |d'.batches[b].items| == |batch.items|
            && forall j :: 0 <= j < |batch.items| ==>
                 d'.batches[b].items[j].d == batch.items[j].d && d'.batches[b].items[j].isDone == done[j]
  {
    FlagsAre(w.dispatchers[i].batches[b].items, done);
  }

  /** A settlement deals with the first item left in the batch: when it gets through the delivery is
      settled, acked if the item is done and back at the broker if not; when it fails, neither. */
  lemma SettleMeans(w: World, i: nat, b: nat, sent: bool)
    requires Enabled(w, Settle(i, b, sent))
    ensures var (d, w') := (w.dispatchers[i], Next(w, Settle(i, b, sent)));
            var (item, d') := (d.batches[b].items[0], w'.dispatchers[i]);
            && |d'.batches| == |d.batches| && d.batches[b].items == [item] + d'.batches[b].items
            && (if sent then item.d.tag in d'.settled && item.d.tag !in d'.unacked && d'.stranded == d.stranded
                else d'.settled == d.settled && d'.unacked == d.unacked && d'.stranded == d.stranded + [item])
            && w'.acked == (if sent && item.isDone then w.acked + multiset{item.d.msg} else w.acked)
            && w'.ready == (if sent && !item.isDone then w.ready + multiset{item.d.msg} else w.ready)
  {
  }

  /** A running dispatcher that holds items in its buffer, its round or its batches can go on. */
  lemma NeverStuck(w: World, i: nat) returns (s: Step)
    requires w.options.batchSize > 0 && w.options.parallelism > 0
    requires i < |w.dispatchers| && w.dispatchers[i].running
    requires var d := w.dispatchers[i]; d.buffer != [] || d.filling != [] || d.batches != []
    ensures Enabled(w, s) && Next(w, s).dispatchers != w.dispatchers
  {
    var d := w.dispatchers[i];
    if b :| 0 <= b < |d.batches| && !d.batches[b].handled {
      s := Handle(i, b, seq(|d.batches[b].items|, _ => true));
      assert Next(w, s).dispatchers[i].batches[b].handled;
    } else if b :| 0 <= b < |d.batches| && d.batches[b].items != [] {
      s := Settle(i, b, false);
      assert Next(w, s).dispatchers[i].batches[b].items == d.batches[b].items[1..];
    } else if d.batches != [] {
      s := FinishRound(i);
      assert Next(w, s).dispatchers[i].batches == [];
    } else if d.filling != [] {
      s := Dispatch(i);
      assert Next(w, s).dispatchers[i].filling == [];
    } else {
      s := Take(i);
      Capacity(w.options.parallelism, w.options.batchSize);
      assert Next(w, s).dispatchers[i].filling == [d.buffer[0]];
    }
  }

  lemma Capacity(a: nat, b: nat)
    requires a > 0 && b > 0
    ensures a * b > 0
  {
  }

  // ---- Counting ----

  lemma {:induction false} CountAppend(a: seq<Item>, y: Item, x: Delivery)
    ensures Count(a + [y], x) == Count(a, x) + (if y.d == x then 1 else 0)
  {
    CountConcat(a, [y], x);
    assert [y][1..] == [];
  }

  lemma {:induction false} CountConcat(a: seq<Item>, b: seq<Item>, x: Delivery)
    ensures Count(a + b, x) == Count(a, x) + Count(b, x)
  {
    if a == [] {
      assert a + b == b;
    } else {
      assert (a + b)[1..] == a[1..] + b;
      CountConcat(a[1..], b, x);
    }
  }

  lemma {:induction false} CountUpdate(bs: seq<Batch>, b: nat, y: Batch, x: Delivery)
    requires b < |bs|
    ensures CountBatches(bs[b := y], x) == CountBatches(bs, x) - Count(bs[b].items, x) + Count(y.items, x)
  {
    if b == 0 {
      assert bs[b := y][1..] == bs[1..];
    } else {
      assert bs[b := y][1..] == bs[1..][b - 1 := y];
      CountUpdate(bs[1..], b - 1, y, x);
    }
  }

  lemma {:induction false} CountFlag(items: seq<Item>, done: seq<bool>, x: Delivery)
    requires |done| == |items|
    ensures Count(Flag(items, done), x) == Count(items, x)
  {
    if items != [] {
      CountFlag(items[1..], done[1..], x);
      assert Flag(items, done)[1..] == Flag(items[1..], done[1..]);
    }
  }

  lemma {:induction false} CountChunks(chunks: seq<seq<Item>>, x: Delivery)
    ensures CountBatches(AsBatches(chunks), x) == Count(Flatten(chunks), x)
  {
    if chunks != [] {
      CountChunks(chunks[1..], x);
      assert AsBatches(chunks)[1..] == AsBatches(chunks[1..]);
      CountConcat(chunks[0], Flatten(chunks[1..]), x);
    }
  }

  lemma {:induction false} CountEmpty(bs: seq<Batch>, x: Delivery)
    requires forall b :: 0 <= b < |bs| ==> bs[b].items == []
    ensures CountBatches(bs, x) == 0
  {
    if bs != [] { CountEmpty(bs[1..], x); }
  }

  lemma {:induction false} OutSettled(unacked: map<nat, int>, n: nat, t: nat, m: int)
    requires t in unacked
    ensures Out(unacked - {t}, n, m) == Out(unacked, n, m) - (if t < n && unacked[t] == m then 1 else 0)
  {
    if n > 0 { OutSettled(unacked, n - 1, t, m); }
  }

  lemma {:induction false} OutAdded(unacked: map<nat, int>, n: nat, t: nat, v: int, m: int)
    requires t >= n
    ensures Out(unacked[t := v], n, m) == Out(unacked, n, m)
  {
    if n > 0 { OutAdded(unacked, n - 1, t, v, m); }
  }

  lemma {:induction false} OutIsMessages(unacked: map<nat, int>, n: nat, m: int)
    ensures Messages(unacked, n)[m] == Out(unacked, n, m)
    ensures Out(map[], n, m) == 0
  {
    if n > 0 { OutIsMessages(unacked, n - 1, m); }
  }

  lemma {:induction false} TotalOutUpdate(ds: seq<Dispatcher>, i: nat, d: Dispatcher, m: int)
    requires i < |ds|
    ensures TotalOut(ds[i := d], m) ==
            TotalOut(ds, m) - Out(ds[i].unacked, ds[i].nextTag, m) + Out(d.unacked, d.nextTag, m)
  {
    var n := |ds| - 1;
    if i == n {
      assert ds[i := d][..n] == ds[..n];
    } else {
      assert ds[i := d][..n] == ds[..n][i := d];
      TotalOutUpdate(ds[..n], i, d, m);
    }
  }

  // ---- Preservation ----

  lemma ReceiveOk(o: Options, d: Dispatcher, m: int)
    requires DispatcherOk(o, d) && d.open
    ensures DispatcherOk(o, Receive(o, d, m))
  {
    var y := Item(Delivery(d.nextTag, m), false);
    var d' := Receive(o, d, m);
    forall x ensures PlaceOk(d', x) {
      assert PlaceOk(d, x);
      CountAppend(d.stranded, y, x);
      CountAppend(d.buffer, y, x);
    }
  }

  lemma ReceiveOut(o: Options, d: Dispatcher, m: int, m': int)
    ensures var d' := Receive(o, d, m);
            Out(d'.unacked, d'.nextTag, m') ==
            Out(d.unacked, d.nextTag, m') + (if (d.nextTag in d'.unacked && d'.unacked[d.nextTag] == m') then 1 else 0)
  {
    OutAdded(d.unacked, d.nextTag, d.nextTag, m, m');
  }

  lemma TakeOk(o: Options, d: Dispatcher)
    requires DispatcherOk(o, d) && d.buffer != []
    ensures DispatcherOk(o, d.(buffer := d.buffer[1..], filling := d.filling + [d.buffer[0]]))
  {
    var d' := d.(buffer := d.buffer[1..], filling := d.filling + [d.buffer[0]]);
    forall x ensures PlaceOk(d', x) {
      assert PlaceOk(d, x);
      CountAppend(d.filling, d.buffer[0], x);
    }
  }

  lemma DispatchOk(o: Options, d: Dispatcher)
    requires DispatcherOk(o, d) && d.batches == [] && o.batchSize > 0
    ensures DispatcherOk(o, d.(filling := [], batches := AsBatches(Chunks(d.filling, o.batchSize))))
  {
    var d' := d.(filling := [], batches := AsBatches(Chunks(d.filling, o.batchSize)));
    ChunksPartition(d.filling, o.batchSize);
    forall x ensures PlaceOk(d', x) {
      assert PlaceOk(d, x);
      CountChunks(Chunks(d.filling, o.batchSize), x);
    }
  }

  lemma HandleOk(o: Options, d: Dispatcher, b: nat, done: seq<bool>)
    requires DispatcherOk(o, d) && b < |d.batches| && |done| == |d.batches[b].items|
    ensures DispatcherOk(o, d.(batches := d.batches[b := Batch(Flag(d.batches[b].items, done), true)]))
  {
    var y := Batch(Flag(d.batches[b].items, done), true);
    var d' := d.(batches := d.batches[b := y]);
    forall x ensures PlaceOk(d', x) {
      assert PlaceOk(d, x);
      CountFlag(d.batches[b].items, done, x);
      CountUpdate(d.batches, b, y, x);
    }
  }

  lemma CancelOk(o: Options, d: Dispatcher, b: nat)
    requires DispatcherOk(o, d) && b < |d.batches|
    ensures DispatcherOk(o, d.(batches := d.batches[b := Batch([], true)], stranded := d.stranded + d.batches[b].items))
  {
    var d' := d.(batches := d.batches[b := Batch([], true)], stranded := d.stranded + d.batches[b].items);
    forall x ensures PlaceOk(d', x) {
      assert PlaceOk(d, x);
      CountUpdate(d.batches, b, Batch([], true), x);
      CountConcat(d.stranded, d.batches[b].items, x);
    }
  }

  lemma FinishOk(o: Options, d: Dispatcher)
    requires DispatcherOk(o, d) && forall b :: 0 <= b < |d.batches| ==> d.batches[b].items == []
    ensures DispatcherOk(o, d.(batches := []))
  {
    var d' := d.(batches := []);
    forall x ensures PlaceOk(d', x) {
      assert PlaceOk(d, x);
      CountEmpty(d.batches, x);
    }
  }

  /** What a batch loses with its first item. */
  lemma DropCounts(d: Dispatcher, b: nat, x: Delivery)
    requires b < |d.batches| && d.batches[b].items != []
    ensures CountBatches(DropFirst(d, b).batches, x) ==
            CountBatches(d.batches, x) - (if d.batches[b].items[0].d == x then 1 else 0)
  {
    CountUpdate(d.batches, b, d.batches[b].(items := d.batches[b].items[1..]), x);
  }

  /** The delivery that is settled next is outstanding, so no settlement is ever repeated. */
  lemma SettlesOutstanding(o: Options, d: Dispatcher, b: nat)
    requires DispatcherOk(o, d) && d.open && b < |d.batches| && d.batches[b].items != []
    ensures IsOutstanding(d, d.batches[b].items[0].d)
  {
    var x := d.batches[b].items[0].d;
    DropCounts(d, b, x);
    assert PlaceOk(d, x);
  }

  lemma SettleOk(o: Options, d: Dispatcher, b: nat, sent: bool)
    requires DispatcherOk(o, d) && (sent ==> d.open) && b < |d.batches| && d.batches[b].items != []
    ensures DispatcherOk(o, SettleFirst(d, b, sent))
  {
    var item := d.batches[b].items[0];
    var d' := SettleFirst(d, b, sent);
    if sent { SettlesOutstanding(o, d, b); }
    forall x ensures PlaceOk(d', x) {
      assert PlaceOk(d, x);
      DropCounts(d, b, x);
      if !sent { CountAppend(d.stranded, item, x); }
    }
  }

  /** One dispatcher is replaced; the messages that leave its channel appear at the broker. */
  lemma Replace(w: World, i: nat, d: Dispatcher, ready: multiset<int>, acked: multiset<int>)
    requires Inv(w) && i < |w.dispatchers| && DispatcherOk(w.options, d)
    requires forall m ::
               w.ready[m] + w.acked[m] + Out(w.dispatchers[i].unacked, w.dispatchers[i].nextTag, m) ==
               ready[m] + acked[m] + Out(d.unacked, d.nextTag, m)
    ensures Inv(w.(dispatchers := w.dispatchers[i := d], ready := ready, acked := acked))
  {
    var w' := w.(dispatchers := w.dispatchers[i := d], ready := ready, acked := acked);
    forall m ensures w'.posted[m] == w'.ready[m] + w'.acked[m] + TotalOut(w'.dispatchers, m) {
      TotalOutUpdate(w.dispatchers, i, d, m);
      assert w.posted[m] == w.ready[m] + w.acked[m] + TotalOut(w.dispatchers, m);
    }
  }

  /** Replacing a dispatcher that keeps its channel as it is. */
  lemma Rearrange(w: World, i: nat, d: Dispatcher)
    requires Inv(w) && i < |w.dispatchers| && DispatcherOk(w.options, d)
    requires d.unacked == w.dispatchers[i].unacked && d.nextTag == w.dispatchers[i].nextTag
    ensures Inv(w.(dispatchers := w.dispatchers[i := d]))
  {
    Replace(w, i, d, w.ready, w.acked);
  }

  lemma DeliverKeeps(w: World, i: nat, m: int)
    requires Inv(w) && Enabled(w, Deliver(i, m))
    ensures Inv(Next(w, Deliver(i, m)))
  {
    var d := w.dispatchers[i];
    var d', ready := Receive(w.options, d, m), Next(w, Deliver(i, m)).ready;
    ReceiveOk(w.options, d, m);
    forall m' ensures w.ready[m'] + w.acked[m'] + Out(d.unacked, d.nextTag, m') ==
                      ready[m'] + w.acked[m'] + Out(d'.unacked, d'.nextTag, m') {
      ReceiveOut(w.options, d, m, m');
      assert d.nextTag !in d.unacked;
    }
    Replace(w, i, d', ready, w.acked);
  }

  lemma SettleKeeps(w: World, i: nat, b: nat, sent: bool)
    requires Inv(w) && Enabled(w, Settle(i, b, sent))
    ensures Inv(Next(w, Settle(i, b, sent)))
  {
    var d, w' := w.dispatchers[i], Next(w, Settle(i, b, sent));
    var d', item := SettleFirst(d, b, sent), d.batches[b].items[0];
    SettleOk(w.options, d, b, sent);
    if sent { SettlesOutstanding(w.options, d, b); }
    forall m ensures w.ready[m] + w.acked[m] + Out(d.unacked, d.nextTag, m) ==
                     w'.ready[m] + w'.acked[m] + Out(d'.unacked, d'.nextTag, m) {
      if sent { OutSettled(d.unacked, d.nextTag, item.d.tag, m); }
    }
    Replace(w, i, d', w'.ready, w'.acked);
  }

  lemma CloseKeeps(w: World, i: nat)
    requires Inv(w) && Enabled(w, Close(i))
    ensures Inv(Next(w, Close(i)))
  {
    var d, w' := w.dispatchers[i], Next(w, Close(i));
    assert DispatcherOk(w.options, d);
    forall x ensures PlaceOk(w'.dispatchers[i], x) {
      assert PlaceOk(d, x);
    }
    forall m ensures w.ready[m] + w.acked[m] + Out(d.unacked, d.nextTag, m) ==
                     w'.ready[m] + w'.acked[m] + Out(map[], d.nextTag, m) {
      OutIsMessages(d.unacked, d.nextTag, m);
    }
    Replace(w, i, w'.dispatchers[i], w'.ready, w'.acked);
  }

  lemma JoinKeeps(w: World)
    requires Inv(w)
    ensures Inv(Next(w, Join))
  {
    var w' := Next(w, Join);
    assert w'.dispatchers[..|w.dispatchers|] == w.dispatchers;
    assert DispatcherOk(w.options, NEW_DISPATCHER);
  }

  lemma NextKeeps(w: World, s: Step)
    requires Inv(w)
    ensures Inv(Next(w, s))
  {
    if Enabled(w, s) {
      match s
      case Post(_) =>
      case Join => JoinKeeps(w);
      case Deliver(i, m) => DeliverKeeps(w, i, m);
      case Settle(i, b, sent) => SettleKeeps(w, i, b, sent);
      case Close(i) => CloseKeeps(w, i);
      case Take(i) =>
        TakeOk(w.options, w.dispatchers[i]);
        Rearrange(w, i, Next(w, s).dispatchers[i]);
      case Dispatch(i) =>
        DispatchOk(w.options, w.dispatchers[i]);
        Rearrange(w, i, Next(w, s).dispatchers[i]);
      case Handle(i, b, done) =>
        HandleOk(w.options, w.dispatchers[i], b, done);
        Rearrange(w, i, Next(w, s).dispatchers[i]);
      case CancelBatch(i, b) =>
        CancelOk(w.options, w.dispatchers[i], b);
        Rearrange(w, i, Next(w, s).dispatchers[i]);
      case FinishRound(i) =>
        FinishOk(w.options, w.dispatchers[i]);
        Rearrange(w, i, Next(w, s).dispatchers[i]);
      case Stop(i) => StopKeeps(w, i);
    }
  }

  lemma StopKeeps(w: World, i: nat)
    requires Inv(w) && Enabled(w, Stop(i))
    ensures Inv(Next(w, Stop(i)))
  {
    var d, d' := w.dispatchers[i], w.dispatchers[i].(running := false);
    assert DispatcherOk(w.options, d);
    forall x ensures PlaceOk(d', x) {
      assert PlaceOk(d, x);
    }
    Rearrange(w, i, d');
  }

  lemma {:induction false} RunKeeps(w: World, steps: seq<Step>)
    requires Inv(w)
    ensures Inv(Run(w, steps)) && Run(w, steps).options == w.options
    decreases |steps|
  {
    if steps != [] {
      NextKeeps(w, steps[0]);
      RunKeeps(Next(w, steps[0]), steps[1..]);
    }
  }

  function Start(o: Options): World {
    World(o, multiset{}, multiset{}, multiset{}, [], false)
  }

  /** While the channel is open, exactly what is outstanding on it is held, in one place; afterwards
      nothing is outstanding, and what is still held was never settled and is in one place. */
  ghost predicate HeldOnce(d: Dispatcher, x: Delivery) {
    if d.open then Places(d, x) == if IsOutstanding(d, x) then 1 else 0
    else !IsOutstanding(d, x) && Places(d, x) <= 1 && (Places(d, x) == 1 ==> x.tag !in d.settled)
  }

  /** Over every run of any number of dispatchers: each message is posted as often as it is ready at
      the broker, acked, or outstanding on some channel; what is outstanding on a channel is held by
      its dispatcher in exactly one of buffer, filling, batches and stranded, and nothing else is
      while the channel is open; a dispatcher whose channel has closed has nothing outstanding, and
      still holds at most once what it never settled; no settlement ever names a delivery that is not
      outstanding or was settled before; and no buffer exceeds its size. */
  lemma ItemsAreConserved(o: Options, steps: seq<Step>)
    ensures var w := Run(Start(o), steps);
            && (forall m :: w.posted[m] == w.ready[m] + w.acked[m] + TotalOut(w.dispatchers, m))
            && !w.violated
            && (forall i, x :: 0 <= i < |w.dispatchers| ==> HeldOnce(w.dispatchers[i], x))
            && (forall i :: 0 <= i < |w.dispatchers| ==> |w.dispatchers[i].buffer| <= o.bufferSize)
  {
    RunKeeps(Start(o), steps);
    var w := Run(Start(o), steps);
    forall i, x | 0 <= i < |w.dispatchers| ensures HeldOnce(w.dispatchers[i], x) {
      assert DispatcherOk(w.options, w.dispatchers[i]) && PlaceOk(w.dispatchers[i], x);
    }
  }

  /** How many items with message `m` and `IsDone` set have their settlement sent in a run. */
  function DoneSettled(w: World, steps: seq<Step>, m: int): nat
    decreases |steps|
  {
    if steps == [] then 0
    else (if SettlesDone(w, steps[0], m) then 1 else 0) + DoneSettled(Next(w, steps[0]), steps[1..], m)
  }

  /** `s` sends the settlement of a handled item with message `m` that the handler marked as done. */
  predicate SettlesDone(w: World, s: Step, m: int) {
    s.Settle? && Enabled(w, s) && s.sent
    && var item := w.dispatchers[s.i].batches[s.b].items[0]; item.isDone && item.d.msg == m
  }

  lemma AckedInStep(w: World, s: Step, m: int)
    ensures Next(w, s).acked[m] == w.acked[m] + (if SettlesDone(w, s, m) then 1 else 0)
  {
  }

  /** Over every run a message is acked exactly as often as an item that carries it was settled with
      `IsDone` set. */
  lemma {:induction false} AckedOnlyWhenDone(w: World, steps: seq<Step>, m: int)
    ensures Run(w, steps).acked[m] == w.acked[m] + DoneSettled(w, steps, m)
    decreases |steps|
  {
    if steps != [] {
      AckedInStep(w, steps[0], m);
      AckedOnlyWhenDone(Next(w, steps[0]), steps[1..], m);
    }
  }
}

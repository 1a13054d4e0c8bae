/** The work item dispatcher: its buffer, its timed fill loop, the slicing into batches and the
    settlement of a batch. */
module WorkItems {
  import opened Basics

  /** A delivery is a tag on one channel together with the message it carries. */
  datatype Delivery = Delivery(tag: nat, msg: int)

  datatype Item = Item(d: Delivery, isDone: bool)

  /** `BatchSize`, `DegreeOfParallelism` and `BufferSize`. */
  datatype Options = Options(batchSize: nat, parallelism: nat, bufferSize: nat)

  // ---- Batches ----

  function BatchCount(count: nat, batchSize: nat): nat
    requires batchSize > 0
  {
    count / batchSize + (if count % batchSize == 0 then 0 else 1)
  }

  /** Cutting `items` into full batches and one last, possibly shorter, batch. */
  function Chunks<T>(items: seq<T>, batchSize: nat): seq<seq<T>>
    requires batchSize > 0
  {
    if items == [] then []
    else if |items| <= batchSize then [items]
    else [items[..batchSize]] + Chunks(items[batchSize..], batchSize)
  }

  function Flatten<T>(bs: seq<seq<T>>): seq<T> {
    if bs == [] then [] else bs[0] + Flatten(bs[1..])
  }

  lemma ProductMonotone(a: nat, b: nat, m: nat)
    requires a <= b
    ensures 0 <= a * m <= b * m
  {
  }

  /** `n` batches of `batchSize` hold `count` items, and `n - 1` do not. */
  predicate IsCeiling(n: nat, count: nat, batchSize: nat) {
    count <= n * batchSize && (n > 0 ==> (n - 1) * batchSize < count)
  }

  lemma BatchCountIsCeiling(count: nat, batchSize: nat)
    requires batchSize > 0
    ensures IsCeiling(BatchCount(count, batchSize), count, batchSize)
  {
    var q, r := count / batchSize, count % batchSize;
    assert count == q * batchSize + r;
    assert (q + 1) * batchSize == q * batchSize + batchSize;
    if r == 0 && q > 0 {
      assert (q - 1) * batchSize == q * batchSize - batchSize;
    }
  }

  lemma CeilingUnique(n: nat, m: nat, count: nat, batchSize: nat)
    requires batchSize > 0 && IsCeiling(n, count, batchSize) && IsCeiling(m, count, batchSize)
    ensures n == m
  {
    if n < m {
      ProductMonotone(n, m - 1, batchSize);
    } else if m < n {
      ProductMonotone(m, n - 1, batchSize);
    }
  }

  /** The batches concatenate to the items in arrival order; each is non-empty and at most
      `batchSize` long, and all but the last are full. */
  lemma {:induction false} ChunksPartition<T>(items: seq<T>, batchSize: nat)
    requires batchSize > 0
    ensures var bs := Chunks(items, batchSize);
            && Flatten(bs) == items
            && (forall i :: 0 <= i < |bs| ==> 1 <= |bs[i]| <= batchSize)
            && (forall i :: 0 <= i < |bs| - 1 ==> |bs[i]| == batchSize)
    decreases |items|
  {
    if items == [] {
    } else if |items| <= batchSize {
      assert Flatten([items]) == items + Flatten([items][1..]);
    } else {
      var rest := items[batchSize..];
      ChunksPartition(rest, batchSize);
      var bs := [items[..batchSize]] + Chunks(rest, batchSize);
      assert bs[1..] == Chunks(rest, batchSize);
      assert items == items[..batchSize] + rest;
    }
  }

  lemma {:induction false} ChunksAreCeiling<T>(items: seq<T>, batchSize: nat)
    requires batchSize > 0
    ensures IsCeiling(|Chunks(items, batchSize)|, |items|, batchSize)
    decreases |items|
  {
    if |items| > batchSize {
      var n := |Chunks(items[batchSize..], batchSize)|;
      ChunksAreCeiling(items[batchSize..], batchSize);
      assert n > 0;
      assert (n + 1) * batchSize == n * batchSize + batchSize;
      assert n * batchSize == (n - 1) * batchSize + batchSize;
    }
  }

  /** The number of batches is the rounded-up quotient that the code computes, and for a fill of at
      most `batchSize * parallelism` items it never exceeds the degree of parallelism. */
  lemma NumberOfBatches<T>(items: seq<T>, batchSize: nat, parallelism: nat)
    requires batchSize > 0
    ensures |Chunks(items, batchSize)| == BatchCount(|items|, batchSize)
    ensures |items| <= parallelism * batchSize ==> BatchCount(|items|, batchSize) <= parallelism
  {
    var n := |Chunks(items, batchSize)|;
    ChunksAreCeiling(items, batchSize);
    BatchCountIsCeiling(|items|, batchSize);
    CeilingUnique(n, BatchCount(|items|, batchSize), |items|, batchSize);
    if n > parallelism {
      ProductMonotone(parallelism, n - 1, batchSize);
    }
  }

  // ---- The dispatcher ----

  /** The broker's channel: settlements in the order they were sent. */
  class Channel {
    var acked: seq<nat>
    var requeued: seq<nat>

    constructor ()
      ensures acked == [] && requeued == []
    {
      acked, requeued := [], [];
    }
  }

  /** The tags of the items whose settlement got through and whose `IsDone` is `done`. */
  function Tags(items: seq<Item>, sent: seq<bool>, done: bool): seq<nat>
    requires |sent| == |items|
  {
    if items == [] then []
    else
      var n := |items| - 1;
      Tags(items[..n], sent[..n], done) + (if sent[n] && items[n].isDone == done then [items[n].d.tag] else [])
  }

  /** `at` lists, in order, the indices below `n` of the items whose settlement got through and whose
      `IsDone` is `done`, all of them and no others, and `tags` their delivery tags. */
  ghost predicate ListsSettled(items: seq<Item>, sent: seq<bool>, n: nat, done: bool, at: seq<nat>, tags: seq<nat>)
    requires |sent| == |items| && n <= |items|
  {
    && (forall k, l :: 0 <= k < l < |at| ==> at[k] < at[l])
    && (forall j: nat :: j in at <==> j < n && sent[j] && items[j].isDone == done)
    && |tags| == |at|
    && (forall k :: 0 <= k < |at| ==> at[k] in at && at[k] < |items| && tags[k] == items[at[k]].d.tag)
  }

  function ItemTags(items: seq<Item>): seq<nat> {
    seq(|items|, i requires 0 <= i < |items| => items[i].d.tag)
  }

  /** Of each batch of arrivals a prefix was accepted. */
  predicate AcceptedFrom(accepted: seq<seq<Item>>, arrivals: seq<seq<Item>>) {
    |accepted| == |arrivals| && forall j :: 0 <= j < |arrivals| ==> accepted[j] <= arrivals[j]
  }

  /** The tags of the arrivals that were not accepted, in order. */
  function Refused(accepted: seq<seq<Item>>, arrivals: seq<seq<Item>>): seq<nat>
    requires AcceptedFrom(accepted, arrivals)
  {
    if arrivals == [] then []
    else
      var n := |arrivals| - 1;
      Refused(accepted[..n], arrivals[..n]) + ItemTags(arrivals[n][|accepted[n]|..])
  }

  /** The account of a fill loop: what it holds (taken or still buffered) is what was buffered before
      and what was accepted, in order, and what was not accepted has been requeued. */
  predicate Booked(arrivals: seq<seq<Item>>, accepted: seq<seq<Item>>, was: seq<Item>, held: seq<Item>,
                   requeuedBefore: seq<nat>, requeued: seq<nat>) {
    && AcceptedFrom(accepted, arrivals)
    && held == was + Flatten(accepted)
    && requeued == requeuedBefore + Refused(accepted, arrivals)
  }

  class WorkItemDispatcher {
    const options: Options
    const channel: Channel
    var queue: seq<Item>

    constructor (options: Options, channel: Channel)
      ensures this.options == options && this.channel == channel && queue == []
    {
      this.options, this.channel, queue := options, channel, [];
    }

    ghost predicate Valid()
      reads this
    {
      |queue| <= options.bufferSize
    }

    /** A delivery that finds the buffer full goes straight back to the broker. */
    method OnNext(item: Item)
      requires Valid()
      modifies this, channel
      ensures Valid()
      ensures |old(queue)| < options.bufferSize ==>
                queue == old(queue) + [item] && channel.requeued == old(channel.requeued)
      ensures |old(queue)| == options.bufferSize ==>
                queue == old(queue) && channel.requeued == old(channel.requeued) + [item.d.tag]
      ensures channel.acked == old(channel.acked)
    {
      if |queue| < options.bufferSize {
        queue := queue + [item];
      } else {
        channel.requeued := channel.requeued + [item.d.tag];
      }
    }

    /** `OnNext` for each of `arrivals`, in order: `accepted` of them find room. */
    method OnNextEach(arrivals: seq<Item>) returns (ghost accepted: seq<Item>)
      requires Valid()
      modifies this, channel
      ensures Valid() && channel.acked == old(channel.acked)
      ensures accepted <= arrivals && queue == old(queue) + accepted
      ensures accepted == arrivals || |queue| == options.bufferSize
      ensures channel.requeued == old(channel.requeued) + ItemTags(arrivals[|accepted|..])
    {
      accepted := [];
      assert arrivals[0..0] == [];
      for j := 0 to |arrivals|
        invariant Valid() && channel.acked == old(channel.acked)
        invariant accepted <= arrivals && |accepted| <= j && queue == old(queue) + accepted
        invariant |accepted| == j || |queue| == options.bufferSize
        invariant channel.requeued == old(channel.requeued) + ItemTags(arrivals[|accepted|..j])
      {
        var full := |queue| == options.bufferSize;
        OnNext(arrivals[j]);
        if full {
          ItemTagsOneMore(arrivals, |accepted|, j);
        } else {
          assert arrivals[|accepted|..j] == [] && arrivals[j + 1..j + 1] == [];
          accepted := accepted + [arrivals[j]];
        }
      }
      assert arrivals[|accepted|..|arrivals|] == arrivals[|accepted|..];
    }

    /** The fill loop of one round. `arrivals[j]` is what is delivered up to turn `j` of the loop,
        whether the loop has waited for it or not, and `accepted[j]` what of it finds room in the
        buffer; the rest is requeued at once. When all have arrived the next wait times out. Nothing
        accepted is lost, duplicated or reordered, and the loop stops short of the capacity only when
        the buffer is empty. */
    method Fill(waitUntilTimeout: bool, arrivals: seq<seq<Item>>)
        returns (items: seq<Item>, turns: nat, ghost accepted: seq<seq<Item>>)
      requires Valid()
      modifies this, channel
      ensures Valid() && channel.acked == old(channel.acked)
      ensures turns <= |arrivals|
      ensures Booked(arrivals[..turns], accepted, old(queue), items + queue, old(channel.requeued), channel.requeued)
      ensures |old(queue)| + |Flatten(arrivals)| <= options.bufferSize ==> accepted == arrivals[..turns]
      ensures |items| <= options.parallelism * options.batchSize
      ensures |items| < options.parallelism * options.batchSize ==>
                queue == [] && (waitUntilTimeout ==> turns == |arrivals|)
    {
      var capacity := options.parallelism * options.batchSize;
      Nonnegative(options.parallelism, options.batchSize);
      items, turns, accepted := [], 0, [];
      assert items + queue == queue;
      while |items| < capacity
        invariant Valid() && channel.acked == old(channel.acked)
        invariant turns <= |arrivals| && |items| <= capacity
        invariant Booked(arrivals[..turns], accepted, old(queue), items + queue, old(channel.requeued), channel.requeued)
        invariant |old(queue)| + |Flatten(arrivals)| <= options.bufferSize ==> accepted == arrivals[..turns]
        decreases capacity - |items|, |arrivals| - turns
      {
        var more := turns < |arrivals|;
        if more {
          FlattenPrefix(arrivals, turns);
          accepted := Arrive(arrivals, turns, items, accepted, old(queue), old(channel.requeued));
          turns := turns + 1;
        }
        if queue != [] {
          TakeFirst(items, queue);
          items, queue := items + [queue[0]], queue[1..];
        } else if !waitUntilTimeout || !more {
          break;
        }
      }
    }

    /** What is delivered up to one turn of the fill loop, with the account of the earlier turns. */
    method Arrive(arrivals: seq<seq<Item>>, turn: nat, ghost items: seq<Item>, ghost accepted: seq<seq<Item>>,
                  ghost was: seq<Item>, ghost requeuedBefore: seq<nat>)
        returns (ghost now: seq<seq<Item>>)
      requires Valid() && turn < |arrivals|
      requires Booked(arrivals[..turn], accepted, was, items + queue, requeuedBefore, channel.requeued)
      modifies this, channel
      ensures Valid() && channel.acked == old(channel.acked)
      ensures Booked(arrivals[..turn + 1], now, was, items + queue, requeuedBefore, channel.requeued)
      ensures |now| == |accepted| + 1 && now[..|accepted|] == accepted
      ensures |old(queue)| + |arrivals[turn]| <= options.bufferSize ==> now[|accepted|] == arrivals[turn]
    {
      ghost var held, sent := items + queue, channel.requeued;
      ghost var got := OnNextEach(arrivals[turn]);
      now := accepted + [got];
      assert items + queue == held + got;
      assert arrivals[..turn + 1] == arrivals[..turn] + [arrivals[turn]];
      BookTurn(arrivals[..turn], accepted, was, held, requeuedBefore, sent, arrivals[turn], got);
    }

    /** The loop that starts one task for each slice of the dequeued items. */
    method Slice(items: seq<Item>) returns (tasks: seq<seq<Item>>)
      requires options.batchSize > 0 && |items| <= options.parallelism * options.batchSize
      ensures tasks == Chunks(items, options.batchSize)
      ensures |tasks| <= options.parallelism
    {
      var batchSize := options.batchSize;
      var batchCount := |items| / batchSize + (if |items| % batchSize == 0 then 0 else 1);
      NumberOfBatches(items, batchSize, options.parallelism);
      tasks := [];
      var i := 0;
      assert items[0..] == items;
      while i < batchCount
        invariant 0 <= i <= batchCount
        invariant Chunks(items, batchSize) == tasks + Rest(items, i * batchSize, i == batchCount, batchSize)
      {
        SliceStep(items, batchSize, i);
        ghost var before := tasks;
        var start := i * batchSize;
        var lastBatch := i == batchCount - 1;
        var batch := if lastBatch then items[start..] else items[start..start + batchSize];
        tasks := tasks + [batch];
        i := i + 1;
        assert before + ([batch] + Rest(items, i * batchSize, lastBatch, batchSize)) ==
               tasks + Rest(items, i * batchSize, lastBatch, batchSize);
      }
    }

    /** Settles a batch item by item. `sent[j]` is whether the channel took the settlement of item
        `j`; a failure is logged and the loop goes on. `done` and `others` list which items were
        acked and which were requeued: in item order, each once. */
    method SendAck(items: seq<Item>, sent: seq<bool>)
        returns (count: nat, ghost done: seq<nat>, ghost others: seq<nat>)
      requires |sent| == |items|
      modifies channel
      ensures channel.acked == old(channel.acked) + Tags(items, sent, true)
      ensures channel.requeued == old(channel.requeued) + Tags(items, sent, false)
      ensures ListsSettled(items, sent, |items|, true, done, Tags(items, sent, true))
      ensures ListsSettled(items, sent, |items|, false, others, Tags(items, sent, false))
      ensures count == |done|
    {
      count := 0;
      for j := 0 to |items|
        invariant channel.acked == old(channel.acked) + Tags(items[..j], sent[..j], true)
        invariant channel.requeued == old(channel.requeued) + Tags(items[..j], sent[..j], false)
        invariant count == |Tags(items[..j], sent[..j], true)|
      {
        assert items[..j + 1][..j] == items[..j] && sent[..j + 1][..j] == sent[..j];
        if sent[j] {
          if items[j].isDone {
            channel.acked := channel.acked + [items[j].d.tag];
            count := count + 1;
          } else {
            channel.requeued := channel.requeued + [items[j].d.tag];
          }
        }
      }
      assert items[..|items|] == items && sent[..|sent|] == sent;
      ghost var tags;
      done, tags := IndicesOf(items, sent, |items|, true);
      others, tags := IndicesOf(items, sent, |items|, false);
    }
  }

  lemma TagsStep(items: seq<Item>, sent: seq<bool>, n: nat, done: bool)
    requires |sent| == |items| && n < |items|
    ensures Tags(items[..n + 1], sent[..n + 1], done) ==
            Tags(items[..n], sent[..n], done) + (if sent[n] && items[n].isDone == done then [items[n].d.tag] else [])
  {
    assert items[..n + 1][..n] == items[..n] && sent[..n + 1][..n] == sent[..n];
  }

  lemma {:induction false} IndicesOf(items: seq<Item>, sent: seq<bool>, n: nat, done: bool) returns (at: seq<nat>, tags: seq<nat>)
    requires |sent| == |items| && n <= |items|
    ensures tags == Tags(items[..n], sent[..n], done)
    ensures ListsSettled(items, sent, n, done, at, tags)
  {
    if n == 0 {
      at, tags := [], [];
    } else {
      var at', tags' := IndicesOf(items, sent, n - 1, done);
      TagsStep(items, sent, n - 1, done);
      at, tags := NextIndex(items, sent, n - 1, done, at', tags');
    }
  }

  lemma NextIndex(items: seq<Item>, sent: seq<bool>, n: nat, done: bool, at: seq<nat>, tags: seq<nat>)
      returns (at': seq<nat>, tags': seq<nat>)
    requires |sent| == |items| && n < |items| && ListsSettled(items, sent, n, done, at, tags)
    ensures tags' == tags + (if sent[n] && items[n].isDone == done then [items[n].d.tag] else [])
    ensures ListsSettled(items, sent, n + 1, done, at', tags')
  {
    if sent[n] && items[n].isDone == done {
      at', tags' := at + [n], tags + [items[n].d.tag];
      forall k | 0 <= k < |at| ensures at[k] < n {
        assert at[k] in at;
      }
    } else {
      at', tags' := at, tags;
    }
  }

  /** Where slice `i` starts and ends. */
  lemma SliceBounds(i: nat, count: nat, batchSize: nat)
    requires batchSize > 0 && i < BatchCount(count, batchSize)
    ensures i * batchSize < count
    ensures (i + 1) * batchSize == i * batchSize + batchSize
    ensures if i == BatchCount(count, batchSize) - 1 then count - i * batchSize <= batchSize
            else count - i * batchSize > batchSize
  {
    var n := BatchCount(count, batchSize);
    BatchCountIsCeiling(count, batchSize);
    ProductMonotone(i, n - 1, batchSize);
    assert (i + 1) * batchSize == i * batchSize + batchSize;
    if i < n - 1 {
      ProductMonotone(i + 1, n - 1, batchSize);
    }
  }

  /** The batches that are still to be cut when the next slice starts at `start`. */
  ghost function Rest<T>(items: seq<T>, start: int, done: bool, batchSize: nat): seq<seq<T>>
    requires batchSize > 0
  {
    if done || start < 0 || start > |items| then [] else Chunks(items[start..], batchSize)
  }

  lemma SliceStep<T>(items: seq<T>, batchSize: nat, i: nat)
    requires batchSize > 0 && i < BatchCount(|items|, batchSize)
    ensures var start, last := i * batchSize, i == BatchCount(|items|, batchSize) - 1;
            && 0 <= start < |items| && (!last ==> start + batchSize < |items|)
            && Rest(items, start, false, batchSize) ==
               [if last then items[start..] else items[start..start + batchSize]]
               + Rest(items, (i + 1) * batchSize, last, batchSize)
  {
    SliceBounds(i, |items|, batchSize);
    var start := i * batchSize;
    var rest := items[start..];
    if i < BatchCount(|items|, batchSize) - 1 {
      assert rest[batchSize..] == items[(i + 1) * batchSize..];
      assert rest[..batchSize] == items[start..start + batchSize];
    }
  }

  lemma Nonnegative(a: nat, b: nat)
    ensures a * b >= 0
  {
  }

  lemma ItemTagsOneMore(items: seq<Item>, from: nat, j: nat)
    requires from <= j < |items|
    ensures ItemTags(items[from..j + 1]) == ItemTags(items[from..j]) + [items[j].d.tag]
  {
  }

  /** One more turn, of whose arrivals `got` is accepted. */
  lemma BookTurn(arrivals: seq<seq<Item>>, accepted: seq<seq<Item>>, was: seq<Item>, held: seq<Item>,
                 requeuedBefore: seq<nat>, requeued: seq<nat>, arrived: seq<Item>, got: seq<Item>)
    requires Booked(arrivals, accepted, was, held, requeuedBefore, requeued) && got <= arrived
    ensures Booked(arrivals + [arrived], accepted + [got], was, held + got, requeuedBefore,
                   requeued + ItemTags(arrived[|got|..]))
  {
    FlattenAppend(accepted, got);
    RefusedAppend(arrivals, accepted, arrived, got);
    Associative(was, Flatten(accepted), got);
    Associative(requeuedBefore, Refused(accepted, arrivals), ItemTags(arrived[|got|..]));
  }

  lemma RefusedAppend(arrivals: seq<seq<Item>>, accepted: seq<seq<Item>>, arrived: seq<Item>, got: seq<Item>)
    requires AcceptedFrom(accepted, arrivals) && got <= arrived
    ensures AcceptedFrom(accepted + [got], arrivals + [arrived])
    ensures Refused(accepted + [got], arrivals + [arrived]) == Refused(accepted, arrivals) + ItemTags(arrived[|got|..])
  {
    assert (accepted + [got])[..|accepted|] == accepted && (arrivals + [arrived])[..|arrivals|] == arrivals;
  }

  lemma Associative<T>(a: seq<T>, b: seq<T>, c: seq<T>)
    ensures (a + b) + c == a + (b + c)
  {
  }

  lemma TakeFirst<T>(items: seq<T>, queue: seq<T>)
    requires queue != []
    ensures (items + [queue[0]]) + queue[1..] == items + queue
  {
  }

  lemma {:induction false} FlattenPrefix<T>(bs: seq<seq<T>>, n: nat)
    requires n < |bs|
    ensures |Flatten(bs[..n])| + |bs[n]| <= |Flatten(bs)|
  {
    if n > 0 {
      assert bs[1..][..n - 1] == bs[..n][1..];
      FlattenPrefix(bs[1..], n - 1);
    }
  }

  lemma {:induction false} FlattenAppend<T>(bs: seq<seq<T>>, b: seq<T>)
    ensures Flatten(bs + [b]) == Flatten(bs) + b
  {
    if bs == [] {
      assert [] + [b] == [b] && [b][1..] == [];
      assert Flatten([b]) == b + Flatten([]);
    } else {
      assert (bs + [b])[1..] == bs[1..] + [b];
      FlattenAppend(bs[1..], b);
    }
  }
}

/** Interleavings of ReadCommitted file transactions whose commits are atomic. */
module FileFold {
  import opened Basics
  import opened InMemorySerial
  import opened RecordFormat
  import opened FileTransactions

  /** `log` records, for each commit that succeeded, the operations it replayed. */
  datatype World<V> = World(bytes: seq<Byte>, open: seq<Pending<V>>, log: seq<seq<Op<V>>>)

  /** A commit carries the order in which it happens to write the pairs. */
  datatype Step<V> =
    | Begin
    | PutKey(t: nat, key: string, value: V)
    | RemoveKey(t: nat, key: string)
    | CommitAll(t: nat, order: seq<(string, V)>)

  function Contents<V>(c: Codec<V>, f: seq<Byte>): map<string, V> {
    if Parse(c, f).Ok? then Parse(c, f).value else map[]
  }

  ghost predicate Enabled<V(!new)>(c: Codec<V>, w: World<V>, s: Step<V>) {
    match s
    case Begin => true
    case PutKey(t, _, _) => t < |w.open|
    case RemoveKey(t, _) => t < |w.open|
    case CommitAll(t, order) =>
      t < |w.open| && Parse(c, w.bytes).Ok? && Enumerates(order, Fold(Contents(c, w.bytes), w.open[t].operations))
  }

  ghost function Next<V(!new)>(c: Codec<V>, w: World<V>, s: Step<V>): World<V> {
    if !Enabled(c, w, s) then w
    else
      match s
      case Begin => w.(open := w.open + [Pending([], [])])
      case PutKey(t, k, v) => w.(open := w.open[t := PutPending(w.open[t], k, v)])
      case RemoveKey(t, k) => w.(open := w.open[t := RemovePending(w.open[t], k, Holds(c, w.bytes, k))])
      case CommitAll(t, order) =>
        w.(bytes := Written(c, order), log := if WritableAll(c, order) then w.log + [w.open[t].operations] else w.log)
  }

  /** What the steps of a transaction do, in terms of the operations asked for: a put is appended to its
      own pending operations and touches nothing else; a remove is, once, if the file holds the key; and
      a commit that succeeds enters exactly its operations in the log, and leaves them pending. */
  lemma StepsMean<V(!new)>(c: Codec<V>, w: World<V>, t: nat, k: string, v: V, order: seq<(string, V)>)
    requires t < |w.open|
    ensures var w' := Next(c, w, Step.Begin);
            w' == w.(open := w.open + [Pending([], [])])
    ensures var w' := Next(c, w, PutKey(t, k, v));
            && w' == w.(open := w'.open) && w'.open == w.open[t := w'.open[t]]
            && w'.open[t].operations == w.open[t].operations + [Op.Put(k, v)] && w'.open[t].removes == w.open[t].removes
    ensures var w' := Next(c, w, RemoveKey(t, k));
            && w' == w.(open := w'.open) && w'.open == w.open[t := w'.open[t]]
            && (if k !in w.open[t].removes && Holds(c, w.bytes, k)
                then w'.open[t] == Pending(w.open[t].removes + [k], w.open[t].operations + [Op.Remove(k)])
                else w'.open[t] == w.open[t])
    ensures Enabled(c, w, CommitAll(t, order)) && WritableAll(c, order) ==>
              var w' := Next(c, w, CommitAll(t, order));
              w'.log == w.log + [w.open[t].operations] && w'.open == w.open
  {
  }

  /** `TryGetValue` of transaction `t`, a scan of the committed file. */
  function Get<V>(c: Codec<V>, w: World<V>, t: nat, k: string): Option<V>
    requires t < |w.open|
  {
    if k in w.open[t].removes then None else Found(c, w.bytes, k)
  }

  ghost function Run<V(!new)>(c: Codec<V>, w: World<V>, steps: seq<Step<V>>): World<V>
    decreases |steps|
  {
    if steps == [] then w else Run(c, Next(c, w, steps[0]), steps[1..])
  }

  /** The operation logs, one commit after another. */
  function Replay<V>(m: map<string, V>, log: seq<seq<Op<V>>>): map<string, V> {
    if log == [] then m else Fold(Replay(m, log[..|log| - 1]), log[|log| - 1])
  }

  /** The values that `ops` put can be written, under their keys. */
  predicate WritableOps<V>(c: Codec<V>, ops: seq<Op<V>>) {
    forall i :: 0 <= i < |ops| && ops[i].Put? ==> Writable(c, ops[i].key, ops[i].value)
  }

  predicate WritableStep<V>(c: Codec<V>, s: Step<V>) {
    s.PutKey? ==> Writable(c, s.key, s.value)
  }

  ghost predicate Inv<V(!new)>(c: Codec<V>, initial: map<string, V>, w: World<V>) {
    && LeftByCommit(c, w.bytes) && Parse(c, w.bytes) == Ok(Replay(initial, w.log))
    && forall t :: 0 <= t < |w.open| ==> WritableOps(c, w.open[t].operations)
  }

  lemma {:induction false} FoldWritable<V(!new)>(c: Codec<V>, m: map<string, V>, ops: seq<Op<V>>)
    requires WritableMap(c, m) && WritableOps(c, ops)
    ensures WritableMap(c, Fold(m, ops))
  {
    if ops != [] {
      FoldWritable(c, m, ops[..|ops| - 1]);
    }
  }

  /** Whatever is pending, a commit on a readable file leaves the folded map if and only if every
      pair of that map can be written. */
  lemma CommitHoldsIff<V(!new)>(c: Codec<V>, w: World<V>, t: nat, order: seq<(string, V)>)
    requires Faithful(c) && Enabled(c, w, CommitAll(t, order))
    ensures var m := Fold(Contents(c, w.bytes), w.open[t].operations);
            var w' := Next(c, w, CommitAll(t, order));
            && (Parse(c, w'.bytes) == Ok(m) <==> WritableMap(c, m))
            && (LeftByCommit(c, w'.bytes) && Parse(c, w'.bytes) == Ok(m) && w'.log == w.log + [w.open[t].operations]
                <==> WritableMap(c, m))
  {
    var m := Fold(Contents(c, w.bytes), w.open[t].operations);
    CommitOf(c, order, m);
    EnumeratesWritable(c, order, m);
  }

  lemma NextKeeps<V(!new)>(c: Codec<V>, initial: map<string, V>, w: World<V>, s: Step<V>)
    requires Faithful(c) && Inv(c, initial, w) && WritableStep(c, s)
    ensures Inv(c, initial, Next(c, w, s))
  {
    if s.CommitAll? && Enabled(c, w, s) {
      var ops := w.open[s.t].operations;
      CommittedIsWritable(c, w.bytes);
      FoldWritable(c, Contents(c, w.bytes), ops);
      CommitHoldsIff(c, w, s.t, s.order);
      assert (w.log + [ops])[..|w.log|] == w.log;
    }
  }

  lemma {:induction false} RunKeeps<V(!new)>(c: Codec<V>, initial: map<string, V>, w: World<V>, steps: seq<Step<V>>)
    requires Faithful(c) && Inv(c, initial, w)
    requires forall i :: 0 <= i < |steps| ==> WritableStep(c, steps[i])
    ensures Inv(c, initial, Run(c, w, steps))
    decreases |steps|
  {
    if steps != [] {
      NextKeeps(c, initial, w, steps[0]);
      RunKeeps(c, initial, Next(c, w, steps[0]), steps[1..]);
    }
  }

  /** For every interleaving of transactions that put what can be written, from every file that
      commits can leave: the file always parses and holds each key once; its map is the commits'
      operation logs folded in commit order over the initial map; and a read of any open transaction
      is a lookup in that map, less the keys that the transaction has pending for removal. */
  lemma TransactionsFold<V(!new)>(c: Codec<V>, start: World<V>, steps: seq<Step<V>>, t: nat, k: string)
    requires Faithful(c) && LeftByCommit(c, start.bytes) && start.log == []
    requires forall i :: 0 <= i < |start.open| ==> WritableOps(c, start.open[i].operations)
    requires forall i :: 0 <= i < |steps| ==> WritableStep(c, steps[i])
    ensures var w, initial := Run(c, start, steps), Contents(c, start.bytes);
            && LeftByCommit(c, w.bytes)
            && Parse(c, w.bytes) == Ok(Replay(initial, w.log))
            && (t < |w.open| ==>
                  var m := Replay(initial, w.log);
                  Get(c, w, t, k) == if k !in w.open[t].removes && k in m then Some(m[k]) else None)
  {
    ScanOfCommitted(c, start.bytes, k);
    RunKeeps(c, Contents(c, start.bytes), start, steps);
    ScanOfCommitted(c, Run(c, start, steps).bytes, k);
  }

  /** A commit is never blocked on the file: every map has an order in which it can be written. */
  lemma CommitsAreEnabled<V(!new)>(c: Codec<V>, w: World<V>, t: nat) returns (order: seq<(string, V)>)
    requires LeftByCommit(c, w.bytes) && Faithful(c) && t < |w.open|
    ensures Enabled(c, w, CommitAll(t, order))
  {
    ScanOfCommitted(c, w.bytes, "");
    order := List(Fold(Contents(c, w.bytes), w.open[t].operations));
  }

  lemma {:induction false} List<V(!new)>(m: map<string, V>) returns (rs: seq<(string, V)>)
    ensures Enumerates(rs, m)
    ensures forall j :: 0 <= j < |rs| ==> rs[j].0 in m
    decreases |m|
  {
    if m == map[] {
      rs := [];
    } else {
      var k :| k in m;
      var rest := m - {k};
      assert rest.Keys == m.Keys - {k};
      var front := List(rest);
      rs := front + [(k, m[k])];
      ListOneMore(front, rest, k, m[k]);
      assert m == rest[k := m[k]];
    }
  }

  lemma ListOneMore<V(!new)>(front: seq<(string, V)>, rest: map<string, V>, k: string, v: V)
    requires Enumerates(front, rest) && k !in rest && forall j :: 0 <= j < |front| ==> front[j].0 in rest
    ensures Enumerates(front + [(k, v)], rest[k := v])
  {
    assert (front + [(k, v)])[..|front|] == front;
  }

  /** A key whose value cannot be written tears the file: it cannot be read any more, and what it
      held is lost. */
  lemma TornCommit<V(!new)>(c: Codec<V>, k: string, v: V, lost: V)
    requires Faithful(c) && Writable(c, k, lost) && !c.writesValue(v)
    ensures var before := EncodeAll(c, [(k, lost)]);
            var w := World.World(before, [Pending([], [Op.Put(k, v)])], []);
            && LeftByCommit(c, before)
            && Enabled(c, w, CommitAll(0, [(k, v)]))
            && Parse(c, Next(c, w, CommitAll(0, [(k, v)])).bytes) == Err(END_OF_STREAM)
  {
    var rs, order := [(k, lost)], [(k, v)];
    var before := EncodeAll(c, rs);
    var ops: seq<Op<V>> := [Op.Put(k, v)];
    assert WritableAll(c, rs) && DistinctKeys(rs);
    RoundTrip(c, rs);
    assert rs[..0] == [] && order[..0] == [] && ops[..0] == [];
    assert MapOf(rs) == map[k := lost] && MapOf(order) == map[k := v];
    assert Fold(map[k := lost], ops) == map[k := v];
    assert WritableCount(c, order, 0) == 0;
    WrittenHolds(c, order);
  }
}

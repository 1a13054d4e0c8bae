/** The counter over the optimistic protocol: what runs of increments, decrements and queries add up
    to, and what exactly is lost when the row is created. */
module Counter {
  import opened Basics
  import opened StateTable
  import opened EFStates
  import opened Retry
  import opened ServiceHost
  import opened Optimistic
  import opened Linearizability

  /** `newValue = val.Value + delta` on `long`. */
  function Add(delta: int): int -> int {
    v => Wrap64(v + delta)
  }

  ghost predicate IsCounterKind(kind: Kind, delta: int) {
    kind == Query || kind == Update(Add(delta))
  }

  /** The requests that arrive in `steps` are queries and additions; `deltas` lists, in order of
      arrival, what each adds. */
  ghost predicate CounterSteps(steps: seq<Step>, deltas: seq<int>)
    decreases |steps|
  {
    if steps == [] then deltas == []
    else if steps[0].Arrive? then
      deltas != [] && IsCounterKind(steps[0].kind, deltas[0]) && CounterSteps(steps[1..], deltas[1..])
    else CounterSteps(steps[1..], deltas)
  }

  lemma {:induction false} DeltasExist(steps: seq<Step>) returns (deltas: seq<int>)
    requires forall i :: 0 <= i < |steps| && steps[i].Arrive? ==> exists d :: IsCounterKind(steps[i].kind, d)
    ensures CounterSteps(steps, deltas)
    decreases |steps|
  {
    if steps == [] {
      deltas := [];
    } else {
      var rest := DeltasExist(steps[1..]);
      if steps[0].Arrive? {
        var d :| IsCounterKind(steps[0].kind, d);
        deltas := [d] + rest;
        assert deltas[1..] == rest;
      } else {
        deltas := rest;
      }
    }
  }

  /** Request `first + i` of the run is the `i`-th to arrive in it. */
  lemma {:induction false} RequestsAreCounters(cfg: Config, w: World, steps: seq<Step>, deltas: seq<int>)
    requires CounterSteps(steps, deltas)
    ensures var requests, first := RunFrom(cfg, w, steps).requests, |w.requests|;
            && |requests| == first + |deltas|
            && forall i :: 0 <= i < |deltas| ==> IsCounterKind(requests[first + i].kind, deltas[i])
    decreases |steps|
  {
    if steps != [] {
      var w1 := Next(cfg, w, steps[0]);
      if steps[0].Arrive? {
        RequestsAreCounters(cfg, w1, steps[1..], deltas[1..]);
        RunExtends(cfg, w1, steps[1..]);
        var requests := RunFrom(cfg, w1, steps[1..]).requests;
        forall i | 0 <= i < |deltas| ensures IsCounterKind(requests[|w.requests| + i].kind, deltas[i]) {
          if i > 0 {
            assert deltas[1..][i - 1] == deltas[i];
            assert |w1.requests| + (i - 1) == |w.requests| + i;
          }
        }
      } else {
        RequestsAreCounters(cfg, w1, steps[1..], deltas);
      }
    }
  }

  // ---- Deltas in commit order ----

  /** What the puts of `log` added, in commit order. */
  function Applied(log: seq<Commit>, deltas: seq<int>): (ds: seq<int>)
    ensures |ds| == |log|
  {
    seq(|log|, k requires 0 <= k < |log| => if log[k].owner < |deltas| then deltas[log[k].owner] else 0)
  }

  /** `ds` lists the deltas of the puts in `log`. */
  ghost predicate AreDeltas(log: seq<Commit>, ds: seq<int>) {
    |ds| == |log| && forall k :: 0 <= k < |log| ==> log[k].f == Add(ds[k])
  }

  lemma AppliedAreDeltas(cfg: Config, steps: seq<Step>, deltas: seq<int>)
    requires UniqueKeys(cfg.table) && CounterSteps(steps, deltas)
    ensures var w := After(cfg, steps);
            && |w.requests| == |deltas|
            && (forall k :: 0 <= k < |w.log| ==> w.log[k].owner < |deltas|)
            && AreDeltas(w.log, Applied(w.log, deltas))
  {
    var w := After(cfg, steps);
    AfterOk(cfg, steps);
    RequestsAreCounters(cfg, Start(cfg), steps, deltas);
    forall k | 0 <= k < |w.log| ensures w.log[k].owner < |deltas| && w.log[k].f == Add(Applied(w.log, deltas)[k]) {
      PutsAreAnswered(cfg, w, k);
      var o := w.log[k].owner;
      assert IsCounterKind(w.requests[0 + o].kind, deltas[o]);
    }
  }

  lemma AddToWrapped(x: int, delta: int)
    ensures Add(delta)(Wrap64(x)) == Wrap64(x + delta)
  {
    Wrap64Add(x, delta);
  }

  lemma DeltaStep(cfg: Config, log: seq<Commit>, k: nat, delta: int, x: int)
    requires k < |log| && log[k].f == Add(delta)
    requires ValueAt(cfg, log, k + 1) == log[k].f(ValueAt(cfg, log, k))
    requires ValueAt(cfg, log, k) == Wrap64(x)
    ensures ValueAt(cfg, log, k + 1) == Wrap64(x + delta)
  {
    AddToWrapped(x, delta);
  }

  /** The sum of the deltas `from..n`. */
  function SumOf(ds: seq<int>, from: nat, n: nat): int
    requires n <= |ds|
  {
    if n <= from then 0 else SumOf(ds, from, n - 1) + ds[n - 1]
  }

  lemma {:induction false} SumSplits(ds: seq<int>, from: nat, mid: nat, n: nat)
    requires from <= mid <= n <= |ds|
    ensures SumOf(ds, from, n) == SumOf(ds, from, mid) + SumOf(ds, mid, n)
  {
    if mid < n { SumSplits(ds, from, mid, n - 1); }
  }

  /** Each put from `from` on applies to what the one before it stored. */
  ghost predicate FoldsFrom(cfg: Config, log: seq<Commit>, from: nat) {
    forall k :: from <= k < |log| ==> ValueAt(cfg, log, k + 1) == log[k].f(ValueAt(cfg, log, k))
  }

  lemma {:induction false} FoldOfDeltas(cfg: Config, log: seq<Commit>, ds: seq<int>, from: nat, n: nat, base: int)
    requires AreDeltas(log, ds) && from <= n <= |log| && FoldsFrom(cfg, log, from)
    requires ValueAt(cfg, log, from) == Wrap64(base)
    ensures ValueAt(cfg, log, n) == Wrap64(base + SumOf(ds, from, n))
  {
    if n > from {
      FoldOfDeltas(cfg, log, ds, from, n - 1, base);
      DeltaStep(cfg, log, n - 1, ds[n - 1], base + SumOf(ds, from, n - 1));
    }
  }

  // ---- Deltas by request ----

  /** What the requests below `m` have added by the first `n` puts: each its delta as often as it has
      put, which by `HonestReplies` is once or never. */
  function AddedBy(log: seq<Commit>, deltas: seq<int>, n: nat, m: nat): int
    requires n <= |log| && m <= |deltas|
  {
    if m == 0 then 0 else AddedBy(log, deltas, n, m - 1) + PutsBy(log, m - 1, n) * deltas[m - 1]
  }

  /** What all requests of a run have added to the counter. */
  function Added(w: World, deltas: seq<int>): int {
    AddedBy(w.log, deltas, |w.log|, |deltas|)
  }

  lemma {:induction false} NothingAdded(log: seq<Commit>, deltas: seq<int>, m: nat)
    requires m <= |deltas|
    ensures AddedBy(log, deltas, 0, m) == 0
  {
    if m > 0 { NothingAdded(log, deltas, m - 1); }
  }

  lemma {:induction false} OneMorePut(log: seq<Commit>, deltas: seq<int>, n: nat, m: nat)
    requires n < |log| && m <= |deltas|
    ensures AddedBy(log, deltas, n + 1, m) ==
            AddedBy(log, deltas, n, m) + (if log[n].owner < m then deltas[log[n].owner] else 0)
  {
    if m > 0 {
      OneMorePut(log, deltas, n, m - 1);
      if log[n].owner == m - 1 { OneMore(PutsBy(log, m - 1, n), deltas[m - 1]); }
    }
  }

  /** Summing over requests and summing in commit order give the same. */
  lemma {:induction false} AddedIsApplied(log: seq<Commit>, deltas: seq<int>, n: nat)
    requires n <= |log| && forall k :: 0 <= k < |log| ==> log[k].owner < |deltas|
    ensures AddedBy(log, deltas, n, |deltas|) == SumOf(Applied(log, deltas), 0, n)
  {
    if n == 0 {
      NothingAdded(log, deltas, |deltas|);
    } else {
      AddedIsApplied(log, deltas, n - 1);
      OneMorePut(log, deltas, n - 1, |deltas|);
    }
  }

  // ---- The counter on an existing row ----

  /** For every run of additions and queries over an existing counter: after each put the counter is
      the initial value plus what the requests have added by then, each its delta once for its one
      put; and the row ends with the initial value plus all that the requests have added. */
  lemma CounterIsExact(cfg: Config, steps: seq<Step>, deltas: seq<int>, n: nat)
    requires UniqueKeys(cfg.table) && Lookup(cfg.table, cfg.key).Some?
    requires -TWO_63 <= Lookup(cfg.table, cfg.key).value.value < TWO_63
    requires CounterSteps(steps, deltas) && n <= |After(cfg, steps).log|
    ensures var w, initial := After(cfg, steps), Lookup(cfg.table, cfg.key).value;
            && |w.requests| == |deltas|
            && ValueAt(cfg, w.log, n) == Wrap64(initial.value + AddedBy(w.log, deltas, n, |deltas|))
            && Lookup(w.table, cfg.key) ==
               Some(Entry(cfg.key, Wrap64(initial.value + Added(w, deltas)), initial.version + |w.log|))
  {
    var w := After(cfg, steps);
    Linearizable(cfg, steps);
    CounterAt(cfg, steps, deltas, n);
    CounterAt(cfg, steps, deltas, |w.log|);
  }

  lemma CounterAt(cfg: Config, steps: seq<Step>, deltas: seq<int>, n: nat)
    requires UniqueKeys(cfg.table) && Lookup(cfg.table, cfg.key).Some?
    requires -TWO_63 <= Lookup(cfg.table, cfg.key).value.value < TWO_63
    requires CounterSteps(steps, deltas) && n <= |After(cfg, steps).log|
    ensures var w := After(cfg, steps);
            && |w.requests| == |deltas|
            && ValueAt(cfg, w.log, n) ==
               Wrap64(Lookup(cfg.table, cfg.key).value.value + AddedBy(w.log, deltas, n, |deltas|))
  {
    var log := After(cfg, steps).log;
    Linearizable(cfg, steps);
    AppliedAreDeltas(cfg, steps, deltas);
    AddedIsApplied(log, deltas, n);
    FoldOfDeltas(cfg, log, Applied(log, deltas), 0, n, Lookup(cfg.table, cfg.key).value.value);
  }

  // ---- The counter on a row that is created ----

  lemma CreatedValue(cfg: Config, log: seq<Commit>, ds: seq<int>)
    requires AreDeltas(log, ds) && cfg.zero == 0 && Lookup(cfg.table, cfg.key).None?
    requires forall k :: 0 <= k < |log| && k != 1 ==> ValueAt(cfg, log, k + 1) == log[k].f(ValueAt(cfg, log, k))
    requires |log| >= 2 ==>
               ValueAt(cfg, log, 2) == log[1].f(if log[1].read.hasValue then ValueAt(cfg, log, 1) else cfg.zero)
    ensures ValueAt(cfg, log, |log|) == Wrap64(SumOf(ds, 0, |log|) - (if FirstPutLost(log) then ds[0] else 0))
  {
    if FirstPutLost(log) {
      assert log[1].f == Add(ds[1]);
      FoldOfDeltas(cfg, log, ds, 2, |log|, ds[1]);
      SumSplits(ds, 0, 2, |log|);
      assert SumOf(ds, 0, 2) == SumOf(ds, 0, 1) + ds[1];
    } else {
      FoldOfDeltas(cfg, log, ds, 0, |log|, 0);
    }
  }

  /** From an absent counter, for every run of additions and queries: the final value is what the
      requests have added, or that without the delta of the very first put; never anything else. */
  lemma BoundedLossAtCreation(cfg: Config, steps: seq<Step>, deltas: seq<int>)
    requires UniqueKeys(cfg.table) && Lookup(cfg.table, cfg.key).None? && cfg.zero == 0
    requires CounterSteps(steps, deltas)
    ensures var w := After(cfg, steps);
            && |w.requests| == |deltas|
            && ValueAt(cfg, w.log, |w.log|) ==
               Wrap64(Added(w, deltas) - (if FirstPutLost(w.log) then Applied(w.log, deltas)[0] else 0))
  {
    var log := After(cfg, steps).log;
    CreationFold(cfg, steps);
    AppliedAreDeltas(cfg, steps, deltas);
    AddedIsApplied(log, deltas, |log|);
    CreatedValue(cfg, log, Applied(log, deltas));
  }

  /** The final value is all that the requests have added exactly when the first put is not lost, or
      its delta is nothing on 64 bits. */
  lemma LossIffStaleInsert(cfg: Config, steps: seq<Step>, deltas: seq<int>)
    requires UniqueKeys(cfg.table) && Lookup(cfg.table, cfg.key).None? && cfg.zero == 0
    requires CounterSteps(steps, deltas)
    ensures var w := After(cfg, steps);
            ValueAt(cfg, w.log, |w.log|) == Wrap64(Added(w, deltas)) <==>
            !FirstPutLost(w.log) || Wrap64(Applied(w.log, deltas)[0]) == 0
  {
    var w := After(cfg, steps);
    BoundedLossAtCreation(cfg, steps, deltas);
    if FirstPutLost(w.log) {
      WrapSeparates(Added(w, deltas), Applied(w.log, deltas)[0]);
    }
  }

  lemma WrapSeparates(x: int, d: int)
    ensures Wrap64(x - d) == Wrap64(x) <==> Wrap64(d) == 0
  {
    Wrap64Add(x - d, d - x);
    Wrap64Add(x, d - x);
    Wrap64Add(d, x - d);
  }

  /** Two increments that both read the absent row, one after the other: both reply 1, and the
      counter is 1. */
  lemma LossHappens()
    ensures var cfg := Config(Sqlite, "counter", 0, []);
            var w1 := Next(cfg, Start(cfg), Arrive(Update(Add(1)), DEFAULTS));
            var w2 := Next(cfg, w1, Arrive(Update(Add(1)), DEFAULTS));
            var w3 := Next(cfg, w2, ReadRow(0));
            var w4 := Next(cfg, w3, ReadRow(1));
            var w5 := Next(cfg, w4, PutRow(0, 0));
            var w6 := Next(cfg, w5, PutRow(1, 0));
            && |w6.requests| == 2
            && w6.requests[0].phase == Done(Reply(Value(Some(1))), Some(1))
            && w6.requests[1].phase == Done(Reply(Value(Some(1))), Some(2))
            && w6.table == [Entry("counter", 1, 1)]
  {
    var cfg := Config(Sqlite, "counter", 0, []);
    var arrived := Request(Update(Add(1)), DEFAULTS, false, 0, 0, [], Ready);
    var w2 := Next(cfg, Next(cfg, Start(cfg), Arrive(Update(Add(1)), DEFAULTS)), Arrive(Update(Add(1)), DEFAULTS));
    assert w2.requests == [arrived, arrived];
    var read := arrived.(phase := HasRead(State(false, 0, 0), 0));
    var w4 := Next(cfg, Next(cfg, w2, ReadRow(0)), ReadRow(1));
    assert w4.requests == [read, read] && w4.table == [];
    var w5 := Next(cfg, w4, PutRow(0, 0));
    assert w5.table == [Entry("counter", 1, 0)] && w5.requests[1] == read;
  }
}

/** Interleavings of in-memory transactions and the serial order they amount to. */
module InMemorySerial {
  import opened Basics

  datatype Op<V> = Put(key: string, value: V) | Remove(key: string)

  function Apply<V>(m: map<string, V>, op: Op<V>): map<string, V> {
    match op
    case Put(k, v) => m[k := v]
    case Remove(k) => m - {k}
  }

  function Fold<V>(m: map<string, V>, ops: seq<Op<V>>): map<string, V> {
    if ops == [] then m else Apply(Fold(m, ops[..|ops| - 1]), ops[|ops| - 1])
  }

  // ---- One transaction, as the code keeps it: a snapshot taken at the first write ----

  function View<V>(store: map<string, V>, snapshot: Option<map<string, V>>): map<string, V> {
    if snapshot.Some? then snapshot.value else store
  }

  /** What a commit leaves in the store; without a write it clears the store before it fails. */
  function CommitResult<V>(snapshot: Option<map<string, V>>): map<string, V> {
    if snapshot.Some? then snapshot.value else map[]
  }

  // ---- Many contexts over one store ----

  /** `snapshot` and `locked` are the code's; the rest is history: the lock grant this transaction
      is, the store that its snapshot was taken from (while there is none, the store at the grant),
      its writes so far and its place in the serial log. */
  datatype Tx<V> = Tx(
    snapshot: Option<map<string, V>>, locked: bool, grant: nat, begin: map<string, V>, ops: seq<Op<V>>, place: Option<nat>)

  datatype Committed<V> = Committed(grant: nat, ops: seq<Op<V>>)

  datatype World<V> = World(
    store: map<string, V>, semaphore: nat, grants: nat, contexts: seq<Option<Tx<V>>>, log: seq<Committed<V>>)

  /** `Local` is a put or remove outside a transaction: it locks, writes a snapshot, and disposes. */
  datatype Step<V> =
    | Open
    | Begin(c: nat)
    | Write(c: nat, op: Op<V>)
    | Commit(c: nat)
    | Dispose(c: nat)
    | Local(op: Op<V>)

  function Start<V>(store: map<string, V>): World<V> {
    World(store, 1, 0, [], [])
  }

  predicate Enabled<V>(w: World<V>, s: Step<V>) {
    match s
    case Open => true
    case Begin(c) => c < |w.contexts| && w.contexts[c].None? && w.semaphore > 0
    case Local(_) => w.semaphore > 0
    case Write(c, _) => c < |w.contexts| && w.contexts[c].Some?
    case Commit(c) => c < |w.contexts| && w.contexts[c].Some?
    case Dispose(c) => c < |w.contexts| && w.contexts[c].Some?
  }

  /** How many logged transactions come before `tx`: all, or all but its own last entry. */
  function Before<V>(log: seq<Committed<V>>, tx: Tx<V>): (n: nat)
    ensures n <= |log|
  {
    if tx.place.Some? && tx.place.value + 1 == |log| then tx.place.value else |log|
  }

  /** A further commit of the same transaction replaces its entry. */
  function LogAfterCommit<V>(log: seq<Committed<V>>, tx: Tx<V>): seq<Committed<V>> {
    log[..Before(log, tx)] + [Committed(tx.grant, tx.ops)]
  }

  function Next<V>(w: World<V>, s: Step<V>): World<V> {
    if !Enabled(w, s) then w
    else
      match s
      case Open => w.(contexts := w.contexts + [None])
      case Begin(c) =>
        w.(semaphore := w.semaphore - 1, grants := w.grants + 1,
           contexts := w.contexts[c := Some(Tx(None, true, w.grants, w.store, [], None))])
      case Local(_) => w
      case Write(c, op) =>
        var tx := w.contexts[c].value;
        var tx' := tx.(snapshot := Some(Apply(View(w.store, tx.snapshot), op)), ops := tx.ops + [op],
                       begin := if tx.snapshot.None? then w.store else tx.begin);
        w.(contexts := w.contexts[c := Some(tx')])
      case Commit(c) =>
        var tx := w.contexts[c].value;
        w.(store := CommitResult(tx.snapshot), log := LogAfterCommit(w.log, tx),
           contexts := w.contexts[c := Some(tx.(place := Some(Before(w.log, tx))))])
      case Dispose(c) =>
        var tx := w.contexts[c].value;
        if tx.locked
        then w.(semaphore := w.semaphore + 1, contexts := w.contexts[c := Some(tx.(locked := false))]) else w
  }

  // ---- What one context can see of a step, without the history ----

  /** The store, the semaphore, and the snapshot of the context's transaction with whether it still
      holds the lock. */
  datatype Core<V> = Core(store: map<string, V>, semaphore: nat, tx: Option<(Option<map<string, V>>, bool)>)

  function CoreOf<V>(w: World<V>, c: nat): Core<V>
    requires c < |w.contexts|
  {
    var x := w.contexts[c];
    Core(w.store, w.semaphore, if x.Some? then Some((x.value.snapshot, x.value.locked)) else None)
  }

  function BeginCore<V>(k: Core<V>): Core<V> {
    if k.tx.None? && k.semaphore > 0 then Core(k.store, k.semaphore - 1, Some((None, true))) else k
  }

  function WriteCore<V>(k: Core<V>, op: Op<V>): Core<V> {
    if k.tx.Some? then k.(tx := Some((Some(Apply(View(k.store, k.tx.value.0), op)), k.tx.value.1))) else k
  }

  function CommitCore<V>(k: Core<V>): Core<V> {
    if k.tx.Some? then k.(store := CommitResult(k.tx.value.0)) else k
  }

  function DisposeCore<V>(k: Core<V>): Core<V> {
    if k.tx.Some? && k.tx.value.1 then Core(k.store, k.semaphore + 1, Some((k.tx.value.0, false))) else k
  }

  /** The steps of a context act on what it can see as these functions say. */
  lemma StepsOnCore<V>(w: World<V>, c: nat, op: Op<V>)
    requires c < |w.contexts|
    ensures CoreOf(Next(w, Begin(c)), c) == BeginCore(CoreOf(w, c))
    ensures CoreOf(Next(w, Write(c, op)), c) == WriteCore(CoreOf(w, c), op)
    ensures CoreOf(Next(w, Commit(c)), c) == CommitCore(CoreOf(w, c))
    ensures CoreOf(Next(w, Dispose(c)), c) == DisposeCore(CoreOf(w, c))
    ensures CoreOf(Next(w, Local(op)), c) == CoreOf(w, c)
    ensures Next(w, Open) == w.(contexts := w.contexts + [None])
  {
  }

  /** What a get through context `c` returns. */
  function Get<V>(w: World<V>, c: nat, k: string): Option<V>
    requires c < |w.contexts| && w.contexts[c].Some?
  {
    var v := View(w.store, w.contexts[c].value.snapshot);
    if k in v then Some(v[k]) else None
  }

  /** No lock has been granted since this transaction's own. It may be live or already disposed. */
  predicate IsLatest<V>(grants: nat, x: Option<Tx<V>>) {
    x.Some? && x.value.grant + 1 == grants
  }

  /** What serial order needs: no write or commit once a later transaction has begun, and no commit
      before a write. */
  predicate Disciplined<V>(w: World<V>, s: Step<V>) {
    match s
    case Write(c, _) => Enabled(w, s) ==> IsLatest(w.grants, w.contexts[c])
    case Commit(c) => Enabled(w, s) ==> IsLatest(w.grants, w.contexts[c]) && w.contexts[c].value.snapshot.Some?
    case _ => true
  }

  function Run<V>(w: World<V>, steps: seq<Step<V>>): World<V>
    decreases |steps|
  {
    if steps == [] then w else Run(Next(w, steps[0]), steps[1..])
  }

  predicate DisciplinedRun<V>(w: World<V>, steps: seq<Step<V>>)
    decreases |steps|
  {
    steps == [] || (Disciplined(w, steps[0]) && DisciplinedRun(Next(w, steps[0]), steps[1..]))
  }

  /** The serial execution of the logged transactions. */
  function Serial<V>(initial: map<string, V>, log: seq<Committed<V>>): map<string, V> {
    if log == [] then initial else Fold(Serial(initial, log[..|log| - 1]), log[|log| - 1].ops)
  }

  function Locked<V>(contexts: seq<Option<Tx<V>>>): nat {
    if contexts == [] then 0
    else
      var last := contexts[|contexts| - 1];
      Locked(contexts[..|contexts| - 1]) + (if last.Some? && last.value.locked then 1 else 0)
  }

  predicate IsLive<V>(x: Option<Tx<V>>) {
    x.Some? && x.value.locked
  }

  /** Every transaction has its own grant, and only the latest one can still hold the lock. */
  ghost predicate GrantsOk<V(!new)>(w: World<V>) {
    && w.semaphore + Locked(w.contexts) == 1
    && (forall c :: 0 <= c < |w.contexts| && w.contexts[c].Some? ==> w.contexts[c].value.grant < w.grants)
    && (forall c :: 0 <= c < |w.contexts| && IsLive(w.contexts[c]) ==> IsLatest(w.grants, w.contexts[c]))
    && (forall c, d :: 0 <= c < d < |w.contexts| && w.contexts[c].Some? && w.contexts[d].Some? ==>
          w.contexts[c].value.grant != w.contexts[d].value.grant)
  }

  /** A snapshot is the store it was taken from with the transaction's own writes. */
  predicate SnapshotOk<V(==)>(tx: Tx<V>) {
    if tx.snapshot.Some? then tx.snapshot.value == Fold(tx.begin, tx.ops) else tx.ops == []
  }

  /** What every step keeps, used as it may. */
  ghost predicate AlwaysOk<V(!new)>(w: World<V>) {
    GrantsOk(w) && forall c :: 0 <= c < |w.contexts| && w.contexts[c].Some? ==> SnapshotOk(w.contexts[c].value)
  }

  ghost predicate LogOk<V(!new)>(initial: map<string, V>, w: World<V>) {
    && w.store == Serial(initial, w.log)
    && (forall i, j :: 0 <= i < j < |w.log| ==> w.log[i].grant < w.log[j].grant)
    && (forall i :: 0 <= i < |w.log| ==> w.log[i].grant < w.grants)
  }

  /** The latest transaction works on the serial store of the transactions before it. */
  ghost predicate LatestOk<V(!new)>(initial: map<string, V>, store: map<string, V>, log: seq<Committed<V>>, tx: Tx<V>) {
    && (tx.place.None? ==> forall i :: 0 <= i < |log| ==> log[i].grant < tx.grant)
    && (tx.place.Some? ==> tx.place.value + 1 == |log| && log[tx.place.value].grant == tx.grant && tx.snapshot.Some?)
    && tx.begin == Serial(initial, log[..Before(log, tx)])
    && (tx.snapshot.None? ==> store == tx.begin)
  }

  ghost predicate Inv<V(!new)>(initial: map<string, V>, w: World<V>) {
    && AlwaysOk(w)
    && LogOk(initial, w)
    && (forall c :: 0 <= c < |w.contexts| && IsLatest(w.grants, w.contexts[c]) ==>
          LatestOk(initial, w.store, w.log, w.contexts[c].value))
  }

  lemma {:induction false} LockedUpdate<V>(contexts: seq<Option<Tx<V>>>, c: nat, x: Option<Tx<V>>)
    requires c < |contexts|
    ensures Locked(contexts[c := x]) ==
            Locked(contexts) - (if contexts[c].Some? && contexts[c].value.locked then 1 else 0)
                             + (if x.Some? && x.value.locked then 1 else 0)
  {
    var n := |contexts| - 1;
    if c == n {
      assert contexts[c := x][..n] == contexts[..n];
    } else {
      assert contexts[c := x][..n] == contexts[..n][c := x];
      LockedUpdate(contexts[..n], c, x);
    }
  }

  lemma {:induction false} NobodyLive<V>(contexts: seq<Option<Tx<V>>>)
    requires Locked(contexts) == 0
    ensures forall c :: 0 <= c < |contexts| ==> !IsLive(contexts[c])
  {
    if contexts != [] { NobodyLive(contexts[..|contexts| - 1]); }
  }

  // ---- Steps, used as they may ----

  /** One context changes and keeps its grant. */
  lemma OneContext<V(!new)>(w: World<V>, w': World<V>, c: nat)
    requires AlwaysOk(w) && c < |w.contexts| && w.contexts[c].Some?
    requires |w'.contexts| == |w.contexts| && w'.contexts == w.contexts[c := w'.contexts[c]] && w'.contexts[c].Some?
    requires w'.grants == w.grants && w'.contexts[c].value.grant == w.contexts[c].value.grant
    requires IsLive(w'.contexts[c]) ==> IsLive(w.contexts[c])
    requires w'.semaphore + (if IsLive(w'.contexts[c]) then 1 else 0) == w.semaphore + (if IsLive(w.contexts[c]) then 1 else 0)
    requires SnapshotOk(w'.contexts[c].value)
    ensures AlwaysOk(w')
  {
    LockedUpdate(w.contexts, c, w'.contexts[c]);
  }

  lemma WrittenSnapshot<V>(store: map<string, V>, tx: Tx<V>, op: Op<V>)
    requires SnapshotOk(tx)
    ensures var begin := if tx.snapshot.None? then store else tx.begin;
            Apply(View(store, tx.snapshot), op) == Fold(begin, tx.ops + [op])
  {
    assert (tx.ops + [op])[..|tx.ops|] == tx.ops;
  }

  lemma BeginAlways<V(!new)>(w: World<V>, c: nat)
    requires AlwaysOk(w) && Enabled(w, Begin(c))
    ensures AlwaysOk(Next(w, Begin(c)))
  {
    NobodyLive(w.contexts);
    LockedUpdate(w.contexts, c, Next(w, Begin(c)).contexts[c]);
  }

  lemma LockedAppend<V>(contexts: seq<Option<Tx<V>>>)
    ensures Locked(contexts + [None]) == Locked(contexts)
  {
    assert (contexts + [None])[..|contexts|] == contexts;
  }

  /** One more context, without a transaction. */
  lemma OneMoreContext<V(!new)>(w: World<V>, w': World<V>)
    requires AlwaysOk(w) && w'.semaphore == w.semaphore && w'.grants == w.grants
    requires |w'.contexts| == |w.contexts| + 1 && w'.contexts[|w.contexts|] == None
    requires forall c :: 0 <= c < |w.contexts| ==> w'.contexts[c] == w.contexts[c]
    requires Locked(w'.contexts) == Locked(w.contexts)
    ensures AlwaysOk(w')
  {
  }

  lemma OpenAlways<V(!new)>(w: World<V>)
    requires AlwaysOk(w)
    ensures AlwaysOk(Next(w, Open))
  {
    var w' := Next(w, Open);
    LockedAppend(w.contexts);
    OneMoreContext(w, w');
  }

  /** No discipline is needed for the locks and the snapshots. */
  lemma NextAlways<V(!new)>(w: World<V>, s: Step<V>)
    requires AlwaysOk(w)
    ensures AlwaysOk(Next(w, s))
  {
    if Enabled(w, s) {
      match s
      case Open => OpenAlways(w);
      case Begin(c) => BeginAlways(w, c);
      case Local(_) =>
      case Write(c, op) =>
        WrittenSnapshot(w.store, w.contexts[c].value, op);
        OneContext(w, Next(w, s), c);
      case Commit(c) => OneContext(w, Next(w, s), c);
      case Dispose(c) => if w.contexts[c].value.locked { OneContext(w, Next(w, s), c); }
    }
  }

  lemma {:induction false} RunAlways<V(!new)>(w: World<V>, steps: seq<Step<V>>)
    requires AlwaysOk(w)
    ensures AlwaysOk(Run(w, steps))
    decreases |steps|
  {
    if steps != [] {
      NextAlways(w, steps[0]);
      RunAlways(Next(w, steps[0]), steps[1..]);
    }
  }

  /** Under any interleaving of any uses, repeated disposals and use after dispose included: the
      semaphore and the undisposed locks sum to one, and at most one transaction is live. */
  lemma LocksAreConserved<V(!new)>(initial: map<string, V>, steps: seq<Step<V>>)
    ensures var w := Run(Start(initial), steps);
            && w.semaphore + Locked(w.contexts) == 1
            && (forall c, d :: 0 <= c < d < |w.contexts| && IsLive(w.contexts[c]) ==> !IsLive(w.contexts[d]))
  {
    RunAlways(Start(initial), steps);
  }

  // ---- When a commit is serial ----

  predicate Touched<V>(ops: seq<Op<V>>, k: string) {
    exists i :: 0 <= i < |ops| && ops[i].key == k
  }

  predicate SameAt<V(==)>(a: map<string, V>, b: map<string, V>, k: string) {
    if k in a then k in b && a[k] == b[k] else k !in b
  }

  /** Operations fix the keys they touch and leave the others. */
  lemma {:induction false} FoldSameAt<V>(a: map<string, V>, b: map<string, V>, ops: seq<Op<V>>, k: string)
    ensures SameAt(Fold(a, ops), Fold(b, ops), k) <==> Touched(ops, k) || SameAt(a, b, k)
  {
    if ops != [] {
      var n := |ops| - 1;
      FoldSameAt(a, b, ops[..n], k);
      assert Touched(ops, k) <==> Touched(ops[..n], k) || ops[n].key == k by {
        if Touched(ops[..n], k) {
          var i :| 0 <= i < n && ops[..n][i].key == k;
          assert ops[i].key == k;
        }
        if i :| 0 <= i < |ops| && ops[i].key == k {
          assert i < n ==> ops[..n][i].key == k;
        }
      }
    }
  }

  lemma FoldsAgree<V(!new)>(a: map<string, V>, b: map<string, V>, ops: seq<Op<V>>)
    ensures Fold(a, ops) == Fold(b, ops) <==> forall k :: !Touched(ops, k) ==> SameAt(a, b, k)
  {
    forall k ensures SameAt(Fold(a, ops), Fold(b, ops), k) <==> Touched(ops, k) || SameAt(a, b, k) {
      FoldSameAt(a, b, ops, k);
    }
    if forall k :: !Touched(ops, k) ==> SameAt(a, b, k) {
      SameEverywhere(Fold(a, ops), Fold(b, ops));
    }
  }

  lemma SameEverywhere<V(!new)>(a: map<string, V>, b: map<string, V>)
    requires forall k :: SameAt(a, b, k)
    ensures a == b
  {
    forall k ensures k in a <==> k in b {
      assert SameAt(a, b, k);
    }
    forall k | k in a ensures a[k] == b[k] {
      assert SameAt(a, b, k);
    }
  }

  /** Any commit by any context at any time, with the store serial before it or not: the store is
      afterwards the serial execution of the log, this transaction last, if and only if every key
      that the transaction does not touch is the same in the store its snapshot was taken from as in
      the serial store of the transactions before it. A commit without a write is serial if and only
      if that store is empty. */
  lemma CommitIsSerialIff<V(!new)>(initial: map<string, V>, steps: seq<Step<V>>, c: nat)
    requires Enabled(Run(Start(initial), steps), Commit(c))
    ensures var w := Run(Start(initial), steps);
            var tx, w' := w.contexts[c].value, Next(w, Commit(c));
            var base := Serial(initial, w.log[..Before(w.log, tx)]);
            w'.store == Serial(initial, w'.log) <==>
            if tx.snapshot.Some? then forall k :: !Touched(tx.ops, k) ==> SameAt(tx.begin, base, k) else base == map[]
  {
    var w := Run(Start(initial), steps);
    RunAlways(Start(initial), steps);
    var tx, w' := w.contexts[c].value, Next(w, Commit(c));
    var n := Before(w.log, tx);
    assert w'.log[..|w'.log| - 1] == w.log[..n];
    FoldsAgree(tx.begin, Serial(initial, w.log[..n]), tx.ops);
  }

  /** A commit of a transaction that others have overtaken, on a store that is serial so far: it stays
      so if and only if the others changed no key but those that this transaction writes itself. */
  lemma OvertakenCommit<V(!new)>(initial: map<string, V>, steps: seq<Step<V>>, c: nat)
    requires Enabled(Run(Start(initial), steps), Commit(c))
    requires var w := Run(Start(initial), steps);
             var tx := w.contexts[c].value;
             && !IsLatest(w.grants, w.contexts[c]) && tx.snapshot.Some?
             && w.store == Serial(initial, w.log) && Before(w.log, tx) == |w.log|
    ensures var w := Run(Start(initial), steps);
            var tx, w' := w.contexts[c].value, Next(w, Commit(c));
            && w'.log == w.log + [Committed(tx.grant, tx.ops)]
            && (w'.store == Serial(initial, w'.log) <==> forall k :: !Touched(tx.ops, k) ==> SameAt(tx.begin, w.store, k))
  {
    var w := Run(Start(initial), steps);
    CommitIsSerialIff(initial, steps, c);
    assert w.log[..|w.log|] == w.log;
  }

  // ---- Disciplined steps ----

  /** The latest transaction changes; no other one is the latest. */
  lemma OnlyLatest<V(!new)>(initial: map<string, V>, w: World<V>, w': World<V>, c: nat)
    requires AlwaysOk(w) && AlwaysOk(w') && c < |w.contexts| && IsLatest(w.grants, w.contexts[c])
    requires |w'.contexts| == |w.contexts| && w'.contexts == w.contexts[c := w'.contexts[c]] && w'.contexts[c].Some?
    requires w'.grants == w.grants
    requires LogOk(initial, w') && LatestOk(initial, w'.store, w'.log, w'.contexts[c].value)
    ensures Inv(initial, w')
  {
    forall d | 0 <= d < |w'.contexts| && IsLatest(w'.grants, w'.contexts[d])
      ensures LatestOk(initial, w'.store, w'.log, w'.contexts[d].value) {
      assert d == c;
    }
  }

  /** Transactions, store and log are what they were; a lock may have been released. */
  ghost predicate SameButLocks<V(!new)>(w: World<V>, w': World<V>) {
    && w'.store == w.store && w'.log == w.log && w'.grants == w.grants
    && forall d :: 0 <= d < |w'.contexts| && w'.contexts[d].Some? ==>
         && d < |w.contexts| && w.contexts[d].Some?
         && w'.contexts[d].value == w.contexts[d].value.(locked := w'.contexts[d].value.locked)
  }

  lemma Unchanged<V(!new)>(initial: map<string, V>, w: World<V>, w': World<V>)
    requires Inv(initial, w) && AlwaysOk(w') && SameButLocks(w, w')
    ensures Inv(initial, w')
  {
    forall d | 0 <= d < |w'.contexts| && IsLatest(w'.grants, w'.contexts[d])
      ensures LatestOk(initial, w'.store, w'.log, w'.contexts[d].value) {
      var tx := w.contexts[d].value;
      assert LatestOk(initial, w.store, w.log, tx);
      LatestIgnoresLock(initial, w.store, w.log, tx, w'.contexts[d].value.locked);
    }
  }

  lemma LatestIgnoresLock<V(!new)>(
    initial: map<string, V>, store: map<string, V>, log: seq<Committed<V>>, tx: Tx<V>, locked: bool)
    requires LatestOk(initial, store, log, tx)
    ensures LatestOk(initial, store, log, tx.(locked := locked))
  {
    assert Before(log, tx.(locked := locked)) == Before(log, tx);
  }

  lemma BeginKeeps<V(!new)>(initial: map<string, V>, w: World<V>, c: nat)
    requires Inv(initial, w) && Enabled(w, Begin(c))
    ensures Inv(initial, Next(w, Begin(c)))
  {
    var w' := Next(w, Begin(c));
    BeginAlways(w, c);
    assert w.log[..|w.log|] == w.log;
    assert LatestOk(initial, w'.store, w'.log, w'.contexts[c].value);
    forall d | 0 <= d < |w'.contexts| && IsLatest(w'.grants, w'.contexts[d])
      ensures LatestOk(initial, w'.store, w'.log, w'.contexts[d].value) {
      assert d == c;
    }
  }

  lemma WriteKeeps<V(!new)>(initial: map<string, V>, w: World<V>, c: nat, op: Op<V>)
    requires Inv(initial, w) && Enabled(w, Write(c, op)) && Disciplined(w, Write(c, op))
    ensures Inv(initial, Next(w, Write(c, op)))
  {
    NextAlways(w, Write(c, op));
    assert LatestOk(initial, w.store, w.log, w.contexts[c].value);
    OnlyLatest(initial, w, Next(w, Write(c, op)), c);
  }

  /** The commit of a latest transaction that has written. */
  lemma CommitIsSerial<V(!new)>(initial: map<string, V>, w: World<V>, tx: Tx<V>)
    requires LogOk(initial, w) && LatestOk(initial, w.store, w.log, tx) && SnapshotOk(tx)
    requires tx.snapshot.Some? && tx.grant < w.grants
    ensures var log := LogAfterCommit(w.log, tx);
            && Serial(initial, log) == tx.snapshot.value
            && (forall i, j :: 0 <= i < j < |log| ==> log[i].grant < log[j].grant)
            && (forall i :: 0 <= i < |log| ==> log[i].grant < w.grants)
            && LatestOk(initial, tx.snapshot.value, log, tx.(place := Some(Before(w.log, tx))))
  {
    var n := Before(w.log, tx);
    var log := LogAfterCommit(w.log, tx);
    assert log[..n] == w.log[..n];
    forall i | 0 <= i < n ensures log[i] == w.log[i] && w.log[i].grant < tx.grant {
    }
  }

  lemma CommitKeeps<V(!new)>(initial: map<string, V>, w: World<V>, c: nat)
    requires Inv(initial, w) && Enabled(w, Commit(c)) && Disciplined(w, Commit(c))
    ensures Inv(initial, Next(w, Commit(c)))
  {
    NextAlways(w, Commit(c));
    CommitIsSerial(initial, w, w.contexts[c].value);
    OnlyLatest(initial, w, Next(w, Commit(c)), c);
  }

  lemma OpenIsSame<V(!new)>(w: World<V>)
    ensures SameButLocks(w, Next(w, Open))
  {
  }

  lemma OpenKeeps<V(!new)>(initial: map<string, V>, w: World<V>)
    requires Inv(initial, w)
    ensures Inv(initial, Next(w, Open))
  {
    OpenAlways(w);
    OpenIsSame(w);
    Unchanged(initial, w, Next(w, Open));
  }

  lemma DisposeKeeps<V(!new)>(initial: map<string, V>, w: World<V>, c: nat)
    requires Inv(initial, w) && Enabled(w, Dispose(c))
    ensures Inv(initial, Next(w, Dispose(c)))
  {
    NextAlways(w, Dispose(c));
    Unchanged(initial, w, Next(w, Dispose(c)));
  }

  lemma NextKeeps<V(!new)>(initial: map<string, V>, w: World<V>, s: Step<V>)
    requires Inv(initial, w) && Disciplined(w, s)
    ensures Inv(initial, Next(w, s))
  {
    if Enabled(w, s) {
      match s
      case Open => OpenKeeps(initial, w);
      case Begin(c) => BeginKeeps(initial, w, c);
      case Local(_) =>
      case Write(c, op) => WriteKeeps(initial, w, c, op);
      case Commit(c) => CommitKeeps(initial, w, c);
      case Dispose(c) => DisposeKeeps(initial, w, c);
    }
  }

  lemma {:induction false} RunKeeps<V(!new)>(initial: map<string, V>, w: World<V>, steps: seq<Step<V>>)
    requires Inv(initial, w) && DisciplinedRun(w, steps)
    ensures Inv(initial, Run(w, steps))
    decreases |steps|
  {
    if steps != [] {
      NextKeeps(initial, w, steps[0]);
      RunKeeps(initial, Next(w, steps[0]), steps[1..]);
    }
  }

  /** For every disciplined interleaving: the store is the committed transactions applied one after
      another in the order of their lock grants; the semaphore and the live locks sum to one; and a
      transaction that no later one has followed reads the serial store of the transactions before
      it, overlaid with its own writes and nobody else's. Every live transaction is such a one. */
  lemma Serializable<V(!new)>(initial: map<string, V>, steps: seq<Step<V>>)
    requires DisciplinedRun(Start(initial), steps)
    ensures var w := Run(Start(initial), steps);
            && w.store == Serial(initial, w.log)
            && (forall i, j :: 0 <= i < j < |w.log| ==> w.log[i].grant < w.log[j].grant)
            && w.semaphore + Locked(w.contexts) == 1
    ensures var w := Run(Start(initial), steps);
            forall c :: 0 <= c < |w.contexts| && IsLive(w.contexts[c]) ==> IsLatest(w.grants, w.contexts[c])
    ensures var w := Run(Start(initial), steps);
            forall c, k :: 0 <= c < |w.contexts| && IsLatest(w.grants, w.contexts[c]) ==>
              var tx := w.contexts[c].value;
              var seen := Fold(Serial(initial, w.log[..Before(w.log, tx)]), tx.ops);
              Get(w, c, k) == if k in seen then Some(seen[k]) else None
  {
    RunKeeps(initial, Start(initial), steps);
  }

  /** A commit keeps the store serial exactly when there has been a write, or the store is empty. */
  lemma CommitNeedsAWrite<V(!new)>(initial: map<string, V>, w: World<V>, c: nat)
    requires Inv(initial, w) && Enabled(w, Commit(c)) && IsLatest(w.grants, w.contexts[c])
    ensures var w' := Next(w, Commit(c));
            w'.store == Serial(initial, w'.log) <==> w.contexts[c].value.snapshot.Some? || w.store == map[]
  {
    var tx := w.contexts[c].value;
    assert LatestOk(initial, w.store, w.log, tx) && SnapshotOk(tx);
    if tx.snapshot.Some? {
      CommitKeeps(initial, w, c);
    } else {
      var w' := Next(w, Commit(c));
      assert w'.log[..|w.log|] == w.log && w'.log[|w.log|].ops == [];
      assert Serial(initial, w'.log) == w.store;
    }
  }

  /** A context that goes on after a later one has begun breaks the order. From the world in which context 0
      has disposed after writing "a" and context 1 has since committed "b", committing context 0
      wipes out "b", which a serial execution keeps. */
  lemma UseAfterDisposeLosesAWrite()
    ensures var a: seq<Op<int>>, b: seq<Op<int>> := [Put("a", 1)], [Put("b", 2)];
            var w0: World<int> := World(map[], 1, 0, [None, None], []);
            var w1 := Next(Next(Next(w0, Begin(0)), Write(0, a[0])), Dispose(0));
            var w2 := Next(Next(Next(Next(w1, Begin(1)), Write(1, b[0])), Commit(1)), Dispose(1));
            "b" in w2.store && "b" !in Next(w2, Commit(0)).store
    ensures "b" in Serial(map[], [Committed(1, [Put("b", 2)]), Committed(0, [Put("a", 1)])])
  {
    var a: seq<Op<int>>, b: seq<Op<int>> := [Put("a", 1)], [Put("b", 2)];
    var w0: World<int> := World(map[], 1, 0, [None, None], []);
    FirstSession(w0, a);
    SecondSession(Next(Next(Next(w0, Begin(0)), Write(0, a[0])), Dispose(0)), b);
    SerialOfTwo(a, b);
  }

  /** Context 0 begins, writes "a" and disposes. */
  lemma FirstSession(w0: World<int>, a: seq<Op<int>>)
    requires a == [Put("a", 1)] && w0.store == map[] && w0.semaphore == 1 && |w0.contexts| == 2
    requires w0.contexts[0].None? && w0.contexts[1].None?
    ensures var w1 := Next(Next(Next(w0, Begin(0)), Write(0, a[0])), Dispose(0));
            && w1.store == map[] && w1.semaphore == 1 && |w1.contexts| == 2 && w1.contexts[1].None?
            && w1.contexts[0].Some? && w1.contexts[0].value.snapshot == Some(map["a" := 1])
  {
    var begun := Next(w0, Begin(0));
    assert begun.contexts[0].Some? && begun.contexts[1].None?;
    var written := Next(begun, Write(0, a[0]));
    assert written.contexts[0].value.snapshot == Some(map["a" := 1]);
  }

  /** Context 1 begins, writes "b", commits and disposes. */
  lemma SecondSession(w1: World<int>, b: seq<Op<int>>)
    requires b == [Put("b", 2)] && w1.store == map[] && w1.semaphore == 1 && |w1.contexts| == 2 && w1.contexts[1].None?
    ensures var w2 := Next(Next(Next(Next(w1, Begin(1)), Write(1, b[0])), Commit(1)), Dispose(1));
            w2.store == map["b" := 2] && |w2.contexts| == 2 && w2.contexts[0] == w1.contexts[0]
  {
    var begun := Next(w1, Begin(1));
    assert begun.contexts[1].Some? && begun.contexts[0] == w1.contexts[0];
    var written := Next(begun, Write(1, b[0]));
    assert written.contexts[1].value.snapshot == Some(map["b" := 2]);
  }

  lemma SerialOfTwo(a: seq<Op<int>>, b: seq<Op<int>>)
    requires a == [Put("a", 1)] && b == [Put("b", 2)]
    ensures "b" in Serial(map[], [Committed(1, b), Committed(0, a)])
  {
    var log := [Committed(1, b), Committed(0, a)];
    assert log[..1] == [Committed(1, b)] && log[..1][..0] == [];
    assert a[..0] == [] && b[..0] == [];
    assert Serial(map[], log[..1]) == Fold(map[], b);
    assert Serial(map[], log) == Fold(Serial(map[], log[..1]), a);
  }
}

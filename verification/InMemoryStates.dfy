/** The in-memory store's objects: the lock and its releases, the shared dictionary, transactions
    and contexts. The methods of a context and of its transaction act on its `Core` as the steps of
    `InMemorySerial` do, by `StepsOnCore`. */
module InMemoryStates {
  import opened Basics
  import opened InMemorySerial

  /** A semaphore of one. `live` holds the handed-out locks that nobody has released. */
  class AsyncLock {
    var count: nat
    ghost var live: set<ActionDisposable>

    constructor ()
      ensures Valid() && count == 1 && live == {}
    {
      count, live := 1, {};
    }

    /** The semaphore count plus the unreleased locks is one. */
    ghost predicate Valid()
      reads this, live
    {
      && count + |live| == 1
      && forall l :: l in live ==> l.semaphore == this && !l.disposed
    }

    /** An awaited `LockAsync` returns once the count is positive. */
    method Lock() returns (l: ActionDisposable)
      requires Valid() && count > 0
      modifies this
      ensures Valid() && fresh(l) && l.semaphore == this && !l.disposed
      ensures count == 0 && live == {l}
    {
      assert live == {};
      count := count - 1;
      l := new ActionDisposable(this);
      live := {l};
    }
  }

  /** `ActionDisposable` around the release of a semaphore. */
  class ActionDisposable {
    const semaphore: AsyncLock
    var disposed: bool

    constructor (semaphore: AsyncLock)
      ensures this.semaphore == semaphore && !disposed
    {
      this.semaphore, disposed := semaphore, false;
    }

    /** Still handed out, or released before. */
    ghost predicate Known()
      reads this, semaphore, semaphore.live
    {
      semaphore.Valid() && (!disposed ==> this in semaphore.live)
    }

    /** Releases once, however often it is called. */
    method Dispose()
      requires Known()
      modifies this, semaphore
      ensures Known() && disposed
      ensures semaphore.count == 1 || semaphore.count == old(semaphore.count)
      ensures semaphore.live == old(semaphore.live) - {this}
      ensures semaphore.count == old(semaphore.count) + (if old(disposed) then 0 else 1)
    {
      if !disposed {
        semaphore.count := semaphore.count + 1;
        semaphore.live := semaphore.live - {this};
        disposed := true;
      }
    }
  }

  class InMemoryStateStore<V> {
    const asyncLock: AsyncLock
    var store: map<string, V>

    constructor (asyncLock: AsyncLock)
      ensures this.asyncLock == asyncLock && store == map[]
    {
      this.asyncLock, store := asyncLock, map[];
    }

    method Put(key: string, value: V)
      modifies this
      ensures store == old(store)[key := value]
    {
      store := store[key := value];
    }

    method Remove(key: string) returns (found: bool)
      modifies this
      ensures found <==> key in old(store)
      ensures store == old(store) - {key}
    {
      found := key in store;
      store := store - {key};
    }
  }

  class InMemoryStateTransaction<V> {
    /** The dictionary of this store object is shared, not copied, until the first write. */
    const store: InMemoryStateStore<V>
    const rwLock: ActionDisposable
    var snapshot: Option<map<string, V>>

    constructor (store: InMemoryStateStore<V>, rwLock: ActionDisposable)
      ensures this.store == store && this.rwLock == rwLock && snapshot == None
    {
      this.store, this.rwLock, snapshot := store, rwLock, None;
    }

    ghost function Sees(): map<string, V>
      reads this, store
    {
      View(store.store, snapshot)
    }

    method EnsureSnapshot()
      modifies this
      ensures snapshot == Some(old(Sees()))
    {
      if snapshot.None? {
        snapshot := Some(store.store);
      }
    }

    method TryGetValue(key: string) returns (value: Option<V>)
      ensures value == if key in Sees() then Some(Sees()[key]) else None
    {
      var source := if snapshot.Some? then snapshot.value else store.store;
      value := if key in source then Some(source[key]) else None;
    }

    method Write(op: Op<V>) returns (found: bool)
      modifies this
      ensures snapshot == Some(Apply(old(Sees()), op))
      ensures found <==> op.key in old(Sees())
      ensures op.Put? ==> Sees() == old(Sees())[op.key := op.value]
      ensures op.Remove? ==> op.key !in Sees() && forall k :: k != op.key ==> SameAt(Sees(), old(Sees()), k)
    {
      EnsureSnapshot();
      found := op.key in snapshot.value;
      match op
      case Put(k, v) => snapshot := Some(snapshot.value[k := v]);
      case Remove(k) => snapshot := Some(snapshot.value - {k});
    }

    /** Clears the shared dictionary and refills it pair by pair, in the snapshot's unspecified
        order. Without a snapshot it has already cleared when it fails. */
    method Commit() returns (r: Result<(), Exn>)
      modifies store
      ensures store.store == CommitResult(snapshot)
      ensures r.Ok? <==> snapshot.Some?
      ensures CoreOfTx(store, this) == CommitCore(old(CoreOfTx(store, this)))
    {
      store.store := map[];
      if snapshot.None? {
        return Err(OtherException(0));
      }
      var todo := snapshot.value.Keys;
      while todo != {}
        invariant todo <= snapshot.value.Keys
        invariant store.store.Keys == snapshot.value.Keys - todo
        invariant forall k :: k in store.store ==> store.store[k] == snapshot.value[k]
        decreases |todo|
      {
        var k :| k in todo;
        store.Put(k, snapshot.value[k]);
        todo := todo - {k};
      }
      r := Ok(());
    }

    method Dispose()
      requires rwLock.Known()
      modifies rwLock, rwLock.semaphore
      ensures rwLock.Known() && rwLock.disposed
      ensures rwLock.semaphore.count == old(rwLock.semaphore.count) + (if old(rwLock.disposed) then 0 else 1)
      ensures rwLock.semaphore.live == old(rwLock.semaphore.live) - {rwLock}
    {
      rwLock.Dispose();
    }
  }

  /** What a context whose transaction is `tx` can see. */
  ghost function CoreOfTx<V>(store: InMemoryStateStore<V>, tx: InMemoryStateTransaction?<V>): Core<V>
    reads store, store.asyncLock, tx, if tx == null then {} else {tx.rwLock}
  {
    Core(store.store, store.asyncLock.count, if tx == null then None else Some((tx.snapshot, !tx.rwLock.disposed)))
  }

  class InMemoryStateContext<V> {
    const store: InMemoryStateStore<V>
    var tx: InMemoryStateTransaction?<V>

    constructor (store: InMemoryStateStore<V>)
      ensures this.store == store && tx == null
    {
      this.store, tx := store, null;
    }

    ghost predicate Valid()
      reads this, store, store.asyncLock, store.asyncLock.live, tx, if tx == null then {} else {tx.rwLock}
    {
      && store.asyncLock.Valid()
      && (tx != null ==>
            && tx.store == store
            && tx.rwLock.semaphore == store.asyncLock
            && (!tx.rwLock.disposed ==> tx.rwLock in store.asyncLock.live))
    }

    /** Throws if the context has ever begun a transaction; otherwise takes the lock. */
    method BeginTransaction() returns (r: Result<InMemoryStateTransaction<V>, Exn>)
      requires Valid()
      requires tx == null ==> store.asyncLock.count > 0
      modifies this, store.asyncLock
      ensures Valid() && store.store == old(store.store)
      ensures r.Ok? <==> old(tx) == null
      ensures r.Err? ==> tx == old(tx) && store.asyncLock.count == old(store.asyncLock.count)
      ensures r.Ok? ==> fresh(r.value) && tx == r.value && tx.snapshot == None && !tx.rwLock.disposed
                        && store.asyncLock.count == 0
      ensures CoreOfTx(store, tx) == BeginCore(old(CoreOfTx(store, tx)))
    {
      if tx != null {
        return Err(OtherException(1));
      }
      var l := store.asyncLock.Lock();
      var t := new InMemoryStateTransaction(store, l);
      tx := t;
      r := Ok(t);
    }

    /** Through the open transaction if there is one, else under a lock held for this call. */
    method Get(key: string) returns (value: Option<V>)
      requires Valid()
      requires tx == null ==> store.asyncLock.count > 0
      modifies store.asyncLock
      ensures Valid() && store.asyncLock.count == old(store.asyncLock.count)
      ensures var seen := if tx != null then tx.Sees() else store.store;
              value == if key in seen then Some(seen[key]) else None
    {
      if tx != null {
        value := tx.TryGetValue(key);
      } else {
        var l := store.asyncLock.Lock();
        var local := new InMemoryStateTransaction(store, l);
        value := local.TryGetValue(key);
        local.Dispose();
      }
    }

    /** A write outside a transaction goes into a local snapshot that is disposed uncommitted, so
        the store keeps what it had. */
    method Write(op: Op<V>)
      requires Valid()
      requires tx == null ==> store.asyncLock.count > 0
      modifies store.asyncLock, tx
      ensures Valid() && store.asyncLock.count == old(store.asyncLock.count)
      ensures store.store == old(store.store)
      ensures tx != null ==> tx.snapshot == Some(Apply(old(if tx != null then tx.Sees() else map[]), op))
      ensures CoreOfTx(store, tx) == WriteCore(old(CoreOfTx(store, tx)), op)
    {
      if tx != null {
        var _ := tx.Write(op);
      } else {
        var l := store.asyncLock.Lock();
        var local := new InMemoryStateTransaction(store, l);
        var _ := local.Write(op);
        local.Dispose();
      }
    }

    method Dispose()
      requires Valid()
      modifies store.asyncLock, if tx == null then {} else {tx.rwLock}
      ensures Valid() && store.store == old(store.store)
      ensures tx != null ==> tx.rwLock.disposed
      ensures old(tx != null && !tx.rwLock.disposed) ==> store.asyncLock.count == 1
      ensures !old(tx != null && !tx.rwLock.disposed) ==> store.asyncLock.count == old(store.asyncLock.count)
      ensures CoreOfTx(store, tx) == DisposeCore(old(CoreOfTx(store, tx)))
    {
      if tx != null {
        tx.Dispose();
      }
    }
  }
}

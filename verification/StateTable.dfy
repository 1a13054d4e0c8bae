/** The `StateEntry` table and the SQL statements that the two command executors send to it.
    A table is the sequence of its rows; every statement is one atomic step that returns the new
    rows and the affected-row count. */
module StateTable {
  import opened Basics

  datatype Entry<V> = Entry(key: string, value: V, version: int)

  datatype Dialect = Sqlite | SqlServer

  /** `guard` is the `AND Version=...` condition: present in the versioned overloads only. */
  datatype Statement<V> =
    | AddOrUpdate(key: string, value: V, guard: Option<int>)
    | Delete(key: string, guard: Option<int>)

  predicate UniqueKeys<V>(t: seq<Entry<V>>) {
    forall i, j :: 0 <= i < j < |t| ==> t[i].key != t[j].key
  }

  predicate Admits(guard: Option<int>, version: int) {
    guard.None? || guard.value == version
  }

  /** The row a primary-key lookup returns (`FirstOrDefault` on the key). */
  function Lookup<V>(t: seq<Entry<V>>, k: string): Option<Entry<V>> {
    if t == [] then None
    else if t[0].key == k then Some(t[0])
    else Lookup(t[1..], k)
  }

  // ---- SQLite: INSERT ... ON CONFLICT(Key) DO UPDATE ... WHERE ----

  function IndexOf<V>(t: seq<Entry<V>>, k: string): (i: nat)
    ensures i <= |t|
    ensures i < |t| ==> t[i].key == k
  {
    if t == [] || t[0].key == k then 0 else 1 + IndexOf(t[1..], k)
  }

  lemma {:induction false} IndexIsFirst<V>(t: seq<Entry<V>>, k: string)
    ensures forall j :: 0 <= j < IndexOf(t, k) ==> t[j].key != k
  {
    if t != [] && t[0].key != k {
      IndexIsFirst(t[1..], k);
      assert forall j :: 0 < j < |t| ==> t[j] == t[1..][j - 1];
    }
  }

  /** The insert conflicts with at most one row, the one that holds the key. */
  function SqliteUpsert<V>(t: seq<Entry<V>>, k: string, v: V, guard: Option<int>): (seq<Entry<V>>, nat) {
    var i := IndexOf(t, k);
    if i == |t| then (t + [Entry(k, v, 0)], 1)
    else if Admits(guard, t[i].version) then (t[i := Entry(k, v, t[i].version + 1)], 1)
    else (t, 0)
  }

  // ---- SQL Server: MERGE ... WHEN MATCHED ... WHEN NOT MATCHED ----

  function UpdateMatched<V>(t: seq<Entry<V>>, k: string, v: V, guard: Option<int>): (seq<Entry<V>>, nat) {
    if t == [] then ([], 0)
    else
      var (rest, n) := UpdateMatched(t[1..], k, v, guard);
      if t[0].key == k && Admits(guard, t[0].version)
      then ([Entry(k, v, t[0].version + 1)] + rest, n + 1)
      else ([t[0]] + rest, n)
  }

  /** The source row is inserted only when no target row joins it, whatever the versions are. */
  function SqlServerMerge<V>(t: seq<Entry<V>>, k: string, v: V, guard: Option<int>): (seq<Entry<V>>, nat) {
    var (updated, n) := UpdateMatched(t, k, v, guard);
    if exists i :: 0 <= i < |t| && t[i].key == k then (updated, n)
    else (updated + [Entry(k, v, 0)], n + 1)
  }

  // ---- DELETE, the same text in both dialects ----

  function DeleteWhere<V>(t: seq<Entry<V>>, k: string, guard: Option<int>): (seq<Entry<V>>, nat) {
    if t == [] then ([], 0)
    else
      var (rest, n) := DeleteWhere(t[1..], k, guard);
      if t[0].key == k && Admits(guard, t[0].version) then (rest, n + 1) else ([t[0]] + rest, n)
  }

  function Execute<V>(d: Dialect, t: seq<Entry<V>>, s: Statement<V>): (seq<Entry<V>>, nat) {
    match s
    case AddOrUpdate(k, v, guard) =>
      if d == Sqlite then SqliteUpsert(t, k, v, guard) else SqlServerMerge(t, k, v, guard)
    case Delete(k, guard) => DeleteWhere(t, k, guard)
  }

  function ExecuteAll<V>(d: Dialect, t: seq<Entry<V>>, ss: seq<Statement<V>>): (seq<Entry<V>>, seq<nat>)
    decreases |ss|
  {
    if ss == [] then (t, [])
    else
      var (t1, n) := Execute(d, t, ss[0]);
      var (t2, ns) := ExecuteAll(d, t1, ss[1..]);
      (t2, [n] + ns)
  }

  // ---- What the statements mean, in terms of lookups only ----

  /** The row that `s` leaves under its own key, given the row that was there. */
  function NewRow<V>(row: Option<Entry<V>>, s: Statement<V>): Option<Entry<V>> {
    match s
    case AddOrUpdate(k, v, guard) =>
      if row.None? then Some(Entry(k, v, 0))
      else if Admits(guard, row.value.version) then Some(Entry(k, v, row.value.version + 1))
      else row
    case Delete(k, guard) =>
      if row.Some? && Admits(guard, row.value.version) then None else row
  }

  /** Whether `s` takes effect: the affected-row count is 1 exactly then, and 0 otherwise. */
  predicate TakesEffect<V>(row: Option<Entry<V>>, s: Statement<V>) {
    match s
    case AddOrUpdate(_, _, guard) => row.Some? ==> Admits(guard, row.value.version)
    case Delete(_, guard) => row.Some? && Admits(guard, row.value.version)
  }

  // ---- Lemmas ----

  lemma {:induction false} LookupSplit<V>(a: seq<Entry<V>>, b: seq<Entry<V>>, k: string)
    ensures Lookup(a + b, k) == if Lookup(a, k).Some? then Lookup(a, k) else Lookup(b, k)
  {
    if a == [] {
      assert a + b == b;
    } else {
      assert (a + b)[1..] == a[1..] + b;
      LookupSplit(a[1..], b, k);
    }
  }

  lemma {:induction false} LookupIsIndexOf<V>(t: seq<Entry<V>>, k: string)
    ensures Lookup(t, k) == if IndexOf(t, k) < |t| then Some(t[IndexOf(t, k)]) else None
  {
    if t != [] && t[0].key != k { LookupIsIndexOf(t[1..], k); }
  }

  /** Replacing the row at the key's position changes the lookup of that key and of no other. */
  lemma {:induction false} LookupUpdate<V>(t: seq<Entry<V>>, i: nat, e: Entry<V>, k: string)
    requires i < |t| && e.key == t[i].key && i == IndexOf(t, e.key)
    ensures Lookup(t[i := e], k) == if k == e.key then Some(e) else Lookup(t, k)
  {
    IndexIsFirst(t, e.key);
    LookupSplit(t[..i], [e] + t[i + 1..], k);
    LookupSplit(t[..i], [t[i]] + t[i + 1..], k);
    assert t[i := e] == t[..i] + ([e] + t[i + 1..]);
    assert t == t[..i] + ([t[i]] + t[i + 1..]);
    LookupIsIndexOf(t[..i], k);
  }

  /** The update of the row at position `i` alone. */
  function UpdateAt<V>(t: seq<Entry<V>>, i: nat, k: string, v: V, guard: Option<int>): (seq<Entry<V>>, nat) {
    if i < |t| && Admits(guard, t[i].version) then (t[i := Entry(k, v, t[i].version + 1)], 1) else (t, 0)
  }

  lemma UpdateAtTail<V>(t: seq<Entry<V>>, j: nat, k: string, v: V, guard: Option<int>)
    requires t != []
    ensures UpdateAt(t, j + 1, k, v, guard) ==
            ([t[0]] + UpdateAt(t[1..], j, k, v, guard).0, UpdateAt(t[1..], j, k, v, guard).1)
  {
    if j + 1 < |t| {
      var e := Entry(k, v, t[j + 1].version + 1);
      assert t[1..][j] == t[j + 1];
      assert t[j + 1 := e] == [t[0]] + t[1..][j := e];
    }
    assert t == [t[0]] + t[1..];
  }

  lemma UpdateAtHead<V>(t: seq<Entry<V>>, k: string, v: V, guard: Option<int>)
    requires t != []
    ensures UpdateAt(t, 0, k, v, guard) ==
            if Admits(guard, t[0].version) then ([Entry(k, v, t[0].version + 1)] + t[1..], 1) else ([t[0]] + t[1..], 0)
  {
    assert t[0 := Entry(k, v, t[0].version + 1)] == [Entry(k, v, t[0].version + 1)] + t[1..];
    assert t == [t[0]] + t[1..];
  }

  /** The table after its first row. */
  lemma TailOf<V>(t: seq<Entry<V>>, k: string)
    requires UniqueKeys(t) && t != []
    ensures UniqueKeys(t[1..]) && [t[0]] + t[1..] == t
    ensures IndexOf(t, k) == if t[0].key == k then 0 else 1 + IndexOf(t[1..], k)
    ensures t[0].key == k ==> IndexOf(t[1..], k) == |t[1..]|
  {
    var j := IndexOf(t[1..], k);
    assert j < |t[1..]| ==> t[1..][j] == t[j + 1];
  }

  lemma {:induction false} UpdateMatchedIsIndexed<V>(t: seq<Entry<V>>, k: string, v: V, guard: Option<int>)
    requires UniqueKeys(t)
    ensures UpdateMatched(t, k, v, guard) == UpdateAt(t, IndexOf(t, k), k, v, guard)
  {
    if t != [] {
      TailOf(t, k);
      UpdateMatchedIsIndexed(t[1..], k, v, guard);
      if t[0].key == k {
        UpdateAtHead(t, k, v, guard);
      } else {
        UpdateAtTail(t, IndexOf(t[1..], k), k, v, guard);
      }
    }
  }

  /** On a table whose primary key holds, the two dialects compute the same rows and the same count. */
  lemma DialectsAgree<V>(t: seq<Entry<V>>, s: Statement<V>)
    requires UniqueKeys(t)
    ensures Execute(Sqlite, t, s) == Execute(SqlServer, t, s)
  {
    if s.AddOrUpdate? {
      UpdateMatchedIsIndexed(t, s.key, s.value, s.guard);
      IndexIsFirst(t, s.key);
    }
  }

  lemma {:induction false} DeleteShrinks<V>(t: seq<Entry<V>>, k: string, guard: Option<int>)
    requires UniqueKeys(t)
    ensures UniqueKeys(DeleteWhere(t, k, guard).0)
    ensures forall e :: e in DeleteWhere(t, k, guard).0 ==> e in t
  {
    if t != [] {
      DeleteShrinks(t[1..], k, guard);
      assert forall e :: e in t[1..] ==> e.key != t[0].key;
    }
  }

  lemma {:induction false} DeleteMeaning<V>(t: seq<Entry<V>>, k: string, guard: Option<int>, other: string)
    requires UniqueKeys(t)
    ensures var (t', n) := DeleteWhere(t, k, guard);
            && UniqueKeys(t')
            && Lookup(t', k) == NewRow(Lookup(t, k), Delete(k, guard))
            && (other != k ==> Lookup(t', other) == Lookup(t, other))
            && n == if TakesEffect(Lookup(t, k), Delete(k, guard)) then 1 else 0
  {
    DeleteShrinks(t, k, guard);
    if t != [] {
      DeleteMeaning(t[1..], k, guard, other);
      if t[0].key == k {
        LookupIsIndexOf(t[1..], k);
        assert Lookup(t[1..], k).None?;
      }
    }
  }

  lemma InsertMeaning<V>(t: seq<Entry<V>>, k: string, v: V, other: string)
    requires UniqueKeys(t) && IndexOf(t, k) == |t|
    ensures var t' := t + [Entry(k, v, 0)];
            && UniqueKeys(t')
            && Lookup(t, k).None? && Lookup(t', k) == Some(Entry(k, v, 0))
            && (other != k ==> Lookup(t', other) == Lookup(t, other))
  {
    var e := Entry(k, v, 0);
    IndexIsFirst(t, k);
    LookupIsIndexOf(t, k);
    LookupSplit(t, [e], k);
    LookupSplit(t, [e], other);
    assert [e][1..] == [];
  }

  lemma UpdateMeaning<V>(t: seq<Entry<V>>, k: string, v: V, other: string)
    requires UniqueKeys(t) && IndexOf(t, k) < |t|
    ensures var i := IndexOf(t, k);
            var e := Entry(k, v, t[i].version + 1);
            && UniqueKeys(t[i := e])
            && Lookup(t, k) == Some(t[i]) && Lookup(t[i := e], k) == Some(e)
            && (other != k ==> Lookup(t[i := e], other) == Lookup(t, other))
  {
    var i := IndexOf(t, k);
    var e := Entry(k, v, t[i].version + 1);
    LookupIsIndexOf(t, k);
    LookupUpdate(t, i, e, k);
    LookupUpdate(t, i, e, other);
  }

  lemma UpsertMeaning<V>(t: seq<Entry<V>>, k: string, v: V, guard: Option<int>, other: string)
    requires UniqueKeys(t)
    ensures var (t', n) := SqliteUpsert(t, k, v, guard);
            var s := AddOrUpdate(k, v, guard);
            && UniqueKeys(t')
            && Lookup(t', k) == NewRow(Lookup(t, k), s)
            && (other != k ==> Lookup(t', other) == Lookup(t, other))
            && n == if TakesEffect(Lookup(t, k), s) then 1 else 0
  {
    if IndexOf(t, k) == |t| {
      InsertMeaning(t, k, v, other);
    } else {
      UpdateMeaning(t, k, v, other);
    }
  }

  /** Every statement, in either dialect: keys stay unique, the statement's own key gets exactly
      `NewRow`, every other key keeps its row, and the count says whether it took effect. */
  lemma StatementMeaning<V>(d: Dialect, t: seq<Entry<V>>, s: Statement<V>, other: string)
    requires UniqueKeys(t)
    ensures var (t', n) := Execute(d, t, s);
            && UniqueKeys(t')
            && Lookup(t', s.key) == NewRow(Lookup(t, s.key), s)
            && (other != s.key ==> Lookup(t', other) == Lookup(t, other))
            && n == if TakesEffect(Lookup(t, s.key), s) then 1 else 0
  {
    match s
    case Delete(k, guard) =>
      DeleteMeaning(t, k, guard, other);
    case AddOrUpdate(k, v, guard) =>
      DialectsAgree(t, s);
      UpsertMeaning(t, k, v, guard, other);
  }

  /** Any run of statements takes both databases through the same rows and row counts. */
  lemma {:induction false} DialectsAgreeOnRuns<V>(t: seq<Entry<V>>, ss: seq<Statement<V>>)
    requires UniqueKeys(t)
    ensures ExecuteAll(Sqlite, t, ss) == ExecuteAll(SqlServer, t, ss)
    ensures UniqueKeys(ExecuteAll(Sqlite, t, ss).0)
    decreases |ss|
  {
    if ss != [] {
      DialectsAgree(t, ss[0]);
      StatementMeaning(Sqlite, t, ss[0], ss[0].key);
      DialectsAgreeOnRuns(Execute(Sqlite, t, ss[0]).0, ss[1..]);
    }
  }

  /** How a row may change between two observations when nobody removes it: it stays, its version
      never drops, and an unchanged version means an untouched row. */
  predicate Evolves<V(==)>(a: Option<Entry<V>>, b: Option<Entry<V>>) {
    a.Some? ==> b.Some? && a.value.version <= b.value.version
                && (a.value.version == b.value.version ==> a == b)
  }

  /** Statements other than deletes of `k` keep `k` evolving, and one that takes effect on an
      existing row raises its version by exactly one. */
  lemma VersionsIncrease<V>(d: Dialect, t: seq<Entry<V>>, s: Statement<V>, k: string)
    requires UniqueKeys(t)
    requires !(s.Delete? && s.key == k)
    ensures Evolves(Lookup(t, k), Lookup(Execute(d, t, s).0, k))
    ensures s.key == k && Lookup(t, k).Some? && Execute(d, t, s).1 == 1 ==>
              Lookup(Execute(d, t, s).0, k) == Some(Entry(k, s.value, Lookup(t, k).value.version + 1))
  {
    StatementMeaning(d, t, s, k);
  }

  lemma {:induction false} EvolvesOnRuns<V>(d: Dialect, t: seq<Entry<V>>, ss: seq<Statement<V>>, k: string)
    requires UniqueKeys(t)
    requires forall s :: s in ss ==> !(s.Delete? && s.key == k)
    ensures UniqueKeys(ExecuteAll(d, t, ss).0)
    ensures Evolves(Lookup(t, k), Lookup(ExecuteAll(d, t, ss).0, k))
    decreases |ss|
  {
    if ss != [] {
      assert ss[0] in ss;
      StatementMeaning(d, t, ss[0], k);
      VersionsIncrease(d, t, ss[0], k);
      EvolvesOnRuns(d, Execute(d, t, ss[0]).0, ss[1..], k);
    }
  }

  /** No lost update: after any run of foreign statements that does not remove the row, a put guarded
      by the version that was read takes effect only when the row is still the one that was read. */
  lemma NoLostUpdate<V>(d: Dialect, t: seq<Entry<V>>, ss: seq<Statement<V>>, k: string, v: V)
    requires UniqueKeys(t) && Lookup(t, k).Some?
    requires forall s :: s in ss ==> !(s.Delete? && s.key == k)
    ensures var read := Lookup(t, k).value;
            var t' := ExecuteAll(d, t, ss).0;
            var (t'', n) := Execute(d, t', AddOrUpdate(k, v, Some(read.version)));
            && (n == 1 <==> Lookup(t', k) == Some(read))
            && Lookup(t'', k) == if n == 1 then Some(Entry(k, v, read.version + 1)) else Lookup(t', k)
  {
    EvolvesOnRuns(d, t, ss, k);
    StatementMeaning(d, ExecuteAll(d, t, ss).0, AddOrUpdate(k, v, Some(Lookup(t, k).value.version)), k);
    LookupIsIndexOf(t, k);
  }
}

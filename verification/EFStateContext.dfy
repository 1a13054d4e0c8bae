/** The database object, the state context over it, and the counter service that uses the context.
    Methods change the rows in place; what a statement means is `StateTable.NewRow`. */
module EFStates {
  import opened Basics
  import opened StateTable

  datatype State<V> = State(hasValue: bool, value: V, version: int)

  /** An absent row reads as the default value at version 0. */
  function ToState<V>(row: Option<Entry<V>>, zero: V): State<V> {
    if row.None? then State(false, zero, 0) else State(true, row.value.value, row.value.version)
  }

  /** One shared database. Each method sends one statement, which the server runs atomically. */
  class StateDatabase<V> {
    const dialect: Dialect
    var rows: seq<Entry<V>>

    constructor (dialect: Dialect)
      ensures this.dialect == dialect && rows == []
    {
      this.dialect := dialect;
      rows := [];
    }

    ghost predicate Valid()
      reads this
    {
      UniqueKeys(rows)
    }

    /** The row with key `k`, if any. */
    function Row(k: string): Option<Entry<V>>
      reads this
    {
      Lookup(rows, k)
    }

    /** Runs one upsert or delete of the configured dialect. */
    method ExecuteSql(s: Statement<V>) returns (count: nat)
      requires Valid()
      modifies this
      ensures Valid()
      ensures rows == Execute(dialect, old(rows), s).0
      ensures Row(s.key) == NewRow(old(Row(s.key)), s)
      ensures forall k :: k != s.key ==> Row(k) == old(Row(k))
      ensures count == if TakesEffect(old(Row(s.key)), s) then 1 else 0
    {
      ghost var before := rows;
      var (after, n) := Execute(dialect, rows, s);
      rows, count := after, n;
      StatementMeaning(dialect, before, s, s.key);
      forall k | k != s.key ensures Lookup(after, k) == Lookup(before, k) {
        StatementMeaning(dialect, before, s, k);
      }
    }
  }

  /** The row that an effective put leaves where `row` was. */
  function PutOver<V>(row: Option<Entry<V>>, k: string, v: V): Entry<V> {
    Entry(k, v, if row.None? then 0 else row.value.version + 1)
  }

  /** One context serves one execution of an action. Its queries track the entities they return: a
      later query of the same context gives the tracked entity again, as it was, while the row
      exists. The SQL statements of puts and removes do not touch what is tracked. */
  class EFStateContext<V> {
    const db: StateDatabase<V>
    const zero: V
    var tracked: map<string, Entry<V>>

    constructor (db: StateDatabase<V>, zero: V)
      ensures this.db == db && this.zero == zero && tracked == map[]
    {
      this.db, this.zero, tracked := db, zero, map[];
    }

    /** Absence reads as version 0, which is also the version of a row just inserted. */
    method Get(key: string) returns (s: State<V>)
      modifies this
      ensures db.Row(key).None? ==> !s.hasValue && s.value == zero && s.version == 0 && tracked == old(tracked)
      ensures db.Row(key).Some? && key !in old(tracked) ==>
                && s.hasValue && db.Row(key) == Some(Entry(key, s.value, s.version))
                && tracked == old(tracked)[key := Entry(key, s.value, s.version)]
      ensures db.Row(key).Some? && key in old(tracked) ==>
                && s.hasValue && s.value == old(tracked)[key].value && s.version == old(tracked)[key].version
                && tracked == old(tracked)
    {
      LookupIsIndexOf(db.rows, key);
      var row := db.Row(key);
      if row.Some? && key in tracked {
        row := Some(tracked[key]);
      } else if row.Some? {
        tracked := tracked[key := row.value];
      }
      s := ToState(row, zero);
    }

    /** The versioned put: it throws exactly when the row exists with another version, and then
        changes nothing. */
    method PutVersioned(key: string, value: V, version: int) returns (r: Result<(), Exn>)
      requires db.Valid()
      modifies db
      ensures db.Valid()
      ensures r.Err? ==> r.error == ConcurrencyException
      ensures r.Err? <==> old(db.Row(key)).Some? && old(db.Row(key)).value.version != version
      ensures r.Err? ==> db.Row(key) == old(db.Row(key))
      ensures r.Ok? ==>
                db.Row(key) == Some(Entry(key, value, if old(db.Row(key)).None? then 0 else version + 1))
      ensures forall k :: k != key ==> db.Row(k) == old(db.Row(k))
    {
      LookupIsIndexOf(db.rows, key);
      var count := db.ExecuteSql(AddOrUpdate(key, value, Some(version)));
      r := if count != 1 then Err(ConcurrencyException) else Ok(());
    }

    /** The unversioned put always takes effect. */
    method Put(key: string, value: V)
      requires db.Valid()
      modifies db
      ensures db.Valid()
      ensures db.Row(key) == Some(PutOver(old(db.Row(key)), key, value))
      ensures forall k :: k != key ==> db.Row(k) == old(db.Row(k))
    {
      var _ := db.ExecuteSql(AddOrUpdate(key, value, None));
    }

    /** The dictionary put: one upsert for each pair, in the dictionary's unspecified order, inside
        a database transaction of its own unless there is one already. `fails` tells at which keys
        the database throws; then an own transaction is rolled back, and an ambient one is left with
        the pairs put so far. */
    method PutAll(pairs: map<string, V>, ambient: bool, fails: set<string>) returns (r: Result<(), Exn>)
      requires db.Valid()
      modifies db
      ensures db.Valid()
      ensures r.Ok? <==> pairs.Keys !! fails
      ensures r.Ok? ==> forall k :: k in pairs ==> db.Row(k) == Some(PutOver(old(db.Row(k)), k, pairs[k]))
      ensures r.Err? && !ambient ==> db.rows == old(db.rows)
      ensures forall k :: k in pairs ==> db.Row(k) == old(db.Row(k)) || db.Row(k) == Some(PutOver(old(db.Row(k)), k, pairs[k]))
      ensures forall k :: k !in pairs || k in fails ==> db.Row(k) == old(db.Row(k))
    {
      var saved := db.rows;
      var todo := pairs.Keys;
      while todo != {}
        invariant db.Valid() && todo <= pairs.Keys
        invariant pairs.Keys - todo !! fails
        invariant forall k :: k in pairs && k !in todo ==> db.Row(k) == Some(PutOver(old(db.Row(k)), k, pairs[k]))
        invariant forall k :: k !in pairs || k in todo ==> db.Row(k) == old(db.Row(k))
        decreases |todo|
      {
        var k :| k in todo;
        if k in fails {
          if !ambient {
            db.rows := saved;
          }
          return Err(OtherException(0));
        }
        Put(k, pairs[k]);
        todo := todo - {k};
      }
      r := Ok(());
    }

    method Remove(key: string)
      requires db.Valid()
      modifies db
      ensures db.Valid() && db.Row(key).None?
      ensures forall k :: k != key ==> db.Row(k) == old(db.Row(k))
    {
      var _ := db.ExecuteSql(Delete(key, None));
    }

    /** The versioned remove throws unless the row exists with that very version. */
    method RemoveVersioned(key: string, version: int) returns (r: Result<(), Exn>)
      requires db.Valid()
      modifies db
      ensures db.Valid()
      ensures r.Err? ==> r.error == ConcurrencyException
      ensures r.Ok? <==> old(db.Row(key)).Some? && old(db.Row(key)).value.version == version
      ensures db.Row(key) == if r.Ok? then None else old(db.Row(key))
      ensures forall k :: k != key ==> db.Row(k) == old(db.Row(k))
    {
      var count := db.ExecuteSql(Delete(key, Some(version)));
      r := if count != 1 then Err(ConcurrencyException) else Ok(());
    }
  }

  /** What other replicas send to the database between two statements of an action. */
  method RunOthers<V>(db: StateDatabase<V>, others: seq<Statement<V>>)
    requires db.Valid()
    modifies db
    ensures db.Valid()
    ensures db.rows == ExecuteAll(db.dialect, old(db.rows), others).0
  {
    for i := 0 to |others|
      invariant db.Valid()
      invariant ExecuteAll(db.dialect, old(db.rows), others).0 == ExecuteAll(db.dialect, db.rows, others[i..]).0
    {
      assert others[i..][1..] == others[i + 1..];
      var _ := db.ExecuteSql(others[i]);
    }
  }

  class CounterService {
    const stateContext: EFStateContext<int>

    constructor (stateContext: EFStateContext<int>)
      ensures this.stateContext == stateContext
    {
      this.stateContext := stateContext;
    }

    /** What an action reads: the tracked entity if there is one, else the row. */
    ghost function Seen(): State<int>
      reads stateContext, stateContext.db
    {
      var row := stateContext.db.Row("counter");
      ToState(if row.Some? && "counter" in stateContext.tracked then Some(stateContext.tracked["counter"]) else row,
              stateContext.zero)
    }

    /** `IncrementAsync` (delta 1) and `DecrementAsync` (delta -1), with the statements of other
        replicas running between the read and the put; `atPut` is the row that the put finds. When
        the context is fresh, the row existed at the read and nobody removes it, the action succeeds
        exactly on an untouched row. */
    method Add(delta: int, others: seq<Statement<int>>) returns (r: Result<int, Exn>, ghost atPut: Option<Entry<int>>)
      requires stateContext.db.Valid()
      modifies stateContext, stateContext.db
      ensures stateContext.db.Valid()
      ensures atPut == Lookup(ExecuteAll(stateContext.db.dialect, old(stateContext.db.rows), others).0, "counter")
      ensures var read := old(Seen());
              && (r.Err? <==> atPut.Some? && atPut.value.version != read.version)
              && (r.Err? ==> r.error == ConcurrencyException && stateContext.db.Row("counter") == atPut)
              && (r.Ok? ==> r.value == Wrap64(read.value + delta)
                            && stateContext.db.Row("counter") ==
                                 Some(Entry("counter", r.value, if atPut.None? then 0 else read.version + 1)))
      ensures "counter" !in old(stateContext.tracked) && old(stateContext.db.Row("counter")).Some?
              && (forall s :: s in others ==> !(s.Delete? && s.key == "counter")) ==>
                && (r.Ok? <==> atPut == old(stateContext.db.Row("counter")))
                && (r.Err? ==> atPut.value.version > old(stateContext.db.Row("counter")).value.version)
    {
      ghost var before := stateContext.db.rows;
      var val := stateContext.Get("counter");
      var newValue := Wrap64(val.value + delta);
      RunOthers(stateContext.db, others);
      atPut := stateContext.db.Row("counter");
      if Lookup(before, "counter").Some? && forall s :: s in others ==> !(s.Delete? && s.key == "counter") {
        EvolvesOnRuns(stateContext.db.dialect, before, others, "counter");
      }
      var put := stateContext.PutVersioned("counter", newValue, val.version);
      r := if put.Ok? then Ok(newValue) else Err(put.error);
    }
  }
}

/** The file-system transaction: reading and scanning loops over the stream, pending operations,
    and the rewriting commit. */
module FileTransactions {
  import opened Basics
  import opened InMemorySerial
  import opened RecordFormat

  /** A file as commits leave it: each key once, and nothing torn. A new, empty file is one. */
  ghost predicate LeftByCommit<V(!new)>(c: Codec<V>, f: seq<Byte>) {
    exists rs: seq<(string, V)> :: DistinctKeys(rs) && WritableAll(c, rs) && f == EncodeAll(c, rs)
  }

  /** The scans of such a file are lookups in its map. */
  lemma ScanOfCommitted<V(!new)>(c: Codec<V>, f: seq<Byte>, key: string)
    requires Faithful(c) && LeftByCommit(c, f)
    ensures Parse(c, f).Ok? && ScanFrom(c, f, 0, key).Ok?
    ensures ScanFrom(c, f, 0, key).value.Some? ==>
              ScanFrom(c, f, 0, key).value.value.size >= 0 && ScanFrom(c, f, 0, key).value.value.start <= |f|
    ensures ScanFrom(c, f, 0, key).value.Some? <==> key in Parse(c, f).value
    ensures Found(c, f, key) == if key in Parse(c, f).value then Some(Parse(c, f).value[key]) else None
  {
    var rs :| DistinctKeys(rs) && WritableAll(c, rs) && f == EncodeAll(c, rs);
    ScanRefinesLookup(c, rs, key);
  }

  /** Everything in such a file can be written again. */
  lemma CommittedIsWritable<V(!new)>(c: Codec<V>, f: seq<Byte>)
    requires Faithful(c) && LeftByCommit(c, f)
    ensures Parse(c, f).Ok? && WritableMap(c, Parse(c, f).value)
  {
    var rs :| DistinctKeys(rs) && WritableAll(c, rs) && f == EncodeAll(c, rs);
    RoundTrip(c, rs);
    EnumeratesWritable(c, rs, MapOf(rs));
  }

  /** A commit of map `m` that writes its pairs in the order `rs`: it leaves `m`, readable and each
      key once, if and only if every pair of `m` can be written. */
  lemma CommitOf<V(!new)>(c: Codec<V>, rs: seq<(string, V)>, m: map<string, V>)
    requires Faithful(c) && Enumerates(rs, m)
    ensures Parse(c, Written(c, rs)) == Ok(m) <==> WritableMap(c, m)
    ensures LeftByCommit(c, Written(c, rs)) && Parse(c, Written(c, rs)) == Ok(m) <==> WritableAll(c, rs)
  {
    WrittenHolds(c, rs);
    EnumeratesWritable(c, rs, m);
  }

  /** The pairs of a dictionary, in its unspecified order. */
  method Enumerate<V(!new)>(m: map<string, V>) returns (order: seq<(string, V)>)
    ensures Enumerates(order, m)
  {
    order := [];
    var todo := m.Keys;
    while todo != {}
      invariant todo <= m.Keys && DistinctKeys(order)
      invariant forall j :: 0 <= j < |order| ==> order[j].0 !in todo
      invariant MapOf(order).Keys == m.Keys - todo
      invariant forall k :: k in MapOf(order) ==> MapOf(order)[k] == m[k]
      decreases |todo|
    {
      var k :| k in todo;
      ghost var before := order;
      order := order + [(k, m[k])];
      assert order[..|before|] == before;
      todo := todo - {k};
    }
    assert MapOf(order) == m;
  }

  /** One turn of the scanning loop at `pos`, where `h` was read: it stops with a result, or goes on. */
  lemma ScanIsTurn<V>(c: Codec<V>, f: seq<Byte>, pos: nat, key: string)
    requires pos < |f|
    ensures match ReadHeader(c, f, pos)
            case Err(e) => ScanFrom(c, f, pos, key) == Err(e)
            case Ok(h) =>
              if h.key == key then ScanFrom(c, f, pos, key) == Ok(Some(h))
              else if h.size < 0 then ScanFrom(c, f, pos, key) == Err(BAD_SIZE)
              else ScanFrom(c, f, pos, key) == ScanFrom(c, f, h.start + h.size, key)
  {
  }

  /** The bytes of the file, shared by every transaction on it. */
  class StateFile {
    var bytes: seq<Byte>

    constructor ()
      ensures bytes == []
    {
      bytes := [];
    }
  }

  /** What a transaction has pending, as far as its commit and its reads depend on it. */
  datatype Pending<V> = Pending(removes: seq<string>, operations: seq<Op<V>>)

  function PutPending<V>(p: Pending<V>, k: string, v: V): Pending<V> {
    p.(operations := p.operations + [Op.Put(k, v)])
  }

  /** `TryFindKey`, where it does not fail. */
  predicate Holds<V>(c: Codec<V>, f: seq<Byte>, key: string) {
    var r := ScanFrom(c, f, 0, key);
    r.Ok? && r.value.Some?
  }

  /** `inFile` tells whether the file holds the key. */
  function RemovePending<V>(p: Pending<V>, k: string, inFile: bool): Pending<V> {
    if k in p.removes || !inFile then p else Pending(p.removes + [k], p.operations + [Op.Remove(k)])
  }

  class FileSystemStateTransaction<!V(!new)> {
    const file: StateFile
    const codec: Codec<V>
    var position: nat
    var pendingUpdates: map<string, V>
    var pendingRemoves: seq<string>
    var pendingOperations: seq<Op<V>>

    constructor (file: StateFile, codec: Codec<V>)
      ensures this.file == file && this.codec == codec
      ensures pendingUpdates == map[] && pendingRemoves == [] && pendingOperations == []
    {
      this.file, this.codec, position := file, codec, 0;
      pendingUpdates, pendingRemoves, pendingOperations := map[], [], [];
    }

    ghost function PendingNow(): Pending<V>
      reads this
    {
      Pending(pendingRemoves, pendingOperations)
    }

    /** `ReadString` and `ReadInt32`, which every loop starts with. */
    method ReadKeyAndSize() returns (r: Result<Header, Exn>)
      modifies this`position
      ensures r == ReadHeader(codec, file.bytes, old(position))
      ensures r.Ok? ==> old(position) < position == r.value.start <= |file.bytes|
    {
      r := ReadHeader(codec, file.bytes, position);
      if r.Ok? {
        position := r.value.start;
      }
    }

    /** Reads every record of any file, or fails as the first bad record does. */
    method ReadAll() returns (r: Result<map<string, V>, Exn>)
      modifies this`position
      ensures r == Parse(codec, file.bytes)
    {
      var result: map<string, V> := map[];
      position := 0;
      while position < |file.bytes|
        invariant Parse(codec, file.bytes) == ParseFrom(codec, file.bytes, position, result)
        decreases |file.bytes| - position
      {
        var h := ReadKeyAndSize();
        if h.Err? {
          return Err(h.error);
        }
        if h.value.size < 0 {
          return Err(BAD_SIZE);
        }
        var end := ValueEnd(file.bytes, h.value);
        var value := file.bytes[position..end];
        position := end;
        result := result[h.value.key := codec.deserialize(value)];
      }
      r := Ok(result);
    }

    /** The early-exit loop that `TryFindKey` and `TryGetValue` share: stops after the header of the
        first record with the key, skipping the values of the others by their size. */
    method Scan(key: string) returns (r: Result<Option<Header>, Exn>)
      modifies this`position
      ensures r == ScanFrom(codec, file.bytes, 0, key)
      ensures r.Ok? && r.value.Some? ==> position == r.value.value.start <= |file.bytes|
    {
      position := 0;
      while position < |file.bytes|
        invariant ScanFrom(codec, file.bytes, position, key) == ScanFrom(codec, file.bytes, 0, key)
        decreases |file.bytes| - position
      {
        var stops;
        stops, r := ScanRecord(key);
        if stops {
          return;
        }
      }
      r := Ok(None);
    }

    /** One turn of the loop: it stops with a result, or skips one record. */
    method ScanRecord(key: string) returns (stops: bool, r: Result<Option<Header>, Exn>)
      requires position < |file.bytes|
      modifies this`position
      ensures stops ==> r == ScanFrom(codec, file.bytes, old(position), key)
      ensures stops && r.Ok? && r.value.Some? ==> position == r.value.value.start <= |file.bytes|
      ensures !stops ==>
                && old(position) < position
                && ScanFrom(codec, file.bytes, position, key) == ScanFrom(codec, file.bytes, old(position), key)
    {
      ScanIsTurn(codec, file.bytes, position, key);
      stops, r := true, Ok(None);
      var h := ReadKeyAndSize();
      if h.Err? {
        r := Err(h.error);
      } else if h.value.key == key {
        r := Ok(Some(h.value));
      } else if h.value.size < 0 {
        r := Err(BAD_SIZE);
      } else {
        position, stops := position + h.value.size, false;
      }
    }

    /** Fails exactly as the scan does. On a file that commits leave it does not fail, and finds
        exactly the keys of the file's map. */
    method TryFindKey(key: string) returns (r: Result<bool, Exn>)
      modifies this`position
      ensures r.Err? <==> ScanFrom(codec, file.bytes, 0, key).Err?
      ensures r.Ok? ==> (r.value <==> ScanFrom(codec, file.bytes, 0, key).value.Some?)
      ensures Faithful(codec) && LeftByCommit(codec, file.bytes) ==>
                Parse(codec, file.bytes).Ok? && r == Ok(key in Parse(codec, file.bytes).value)
    {
      ghost var f := file.bytes;
      if Faithful(codec) && LeftByCommit(codec, f) {
        ScanOfCommitted(codec, f, key);
      }
      var h := Scan(key);
      r := if h.Err? then Err(h.error) else Ok(h.value.Some?);
    }

    /** A key pending removal is hidden; otherwise the early-exit scan decides. Pending puts are
        not consulted. */
    method TryGetValue(key: string) returns (r: Result<Option<V>, Exn>)
      modifies this`position
      ensures key in pendingRemoves ==> r == Ok(None)
      ensures key !in pendingRemoves && ScanFrom(codec, file.bytes, 0, key).Err? ==> r.Err?
      ensures r.Ok? && key !in pendingRemoves ==> r.value == Found(codec, file.bytes, key)
      ensures Faithful(codec) && LeftByCommit(codec, file.bytes) ==>
                && Parse(codec, file.bytes).Ok?
                && var m := Parse(codec, file.bytes).value;
                   r == Ok(if key !in pendingRemoves && key in m then Some(m[key]) else None)
    {
      ghost var f := file.bytes;
      if Faithful(codec) && LeftByCommit(codec, f) {
        ScanOfCommitted(codec, f, key);
      }
      if key in pendingRemoves {
        return Ok(None);
      }
      var h := Scan(key);
      if h.Err? {
        return Err(h.error);
      }
      if h.value.None? {
        return Ok(None);
      }
      if h.value.value.size < 0 {
        return Err(BAD_SIZE);
      }
      var end := ValueEnd(file.bytes, h.value.value);
      r := Ok(Some(codec.deserialize(file.bytes[position..end])));
      position := end;
    }

    method Put(key: string, value: V)
      modifies this`pendingUpdates, this`pendingOperations
      ensures pendingUpdates == old(pendingUpdates)[key := value]
      ensures pendingOperations == old(pendingOperations) + [Op.Put(key, value)]
      ensures PendingNow() == PutPending(old(PendingNow()), key, value)
    {
      pendingUpdates := pendingUpdates[key := value];
      pendingOperations := pendingOperations + [Op.Put(key, value)];
    }

    /** Recorded once, and only for a key that the scan finds now. */
    method Remove(key: string) returns (r: Result<bool, Exn>)
      modifies this`position, this`pendingRemoves, this`pendingOperations
      ensures r.Err? <==> key !in old(pendingRemoves) && ScanFrom(codec, file.bytes, 0, key).Err?
      ensures var removed := r == Ok(true);
              && pendingRemoves == old(pendingRemoves) + (if removed then [key] else [])
              && pendingOperations == old(pendingOperations) + (if removed then [Op.Remove(key)] else [])
      ensures r.Ok? ==> PendingNow() == RemovePending(old(PendingNow()), key, Holds(codec, file.bytes, key))
      ensures Faithful(codec) && LeftByCommit(codec, file.bytes) ==>
                && Parse(codec, file.bytes).Ok?
                && r == Ok(key !in old(pendingRemoves) && key in Parse(codec, file.bytes).value)
    {
      ghost var f := file.bytes;
      if Faithful(codec) && LeftByCommit(codec, f) {
        ScanOfCommitted(codec, f, key);
      }
      r := Ok(false);
      if key !in pendingRemoves {
        r := TryFindKey(key);
        if r == Ok(true) {
          pendingRemoves := pendingRemoves + [key];
          pendingOperations := pendingOperations + [Op.Remove(key)];
        }
      }
    }

    /** The writing loop of the commit, on the emptied file; `order` is how the dictionary
        enumerates. A key or value that cannot be encoded stops it where it is. */
    method WriteAll(order: seq<(string, V)>) returns (r: Result<(), Exn>)
      requires file.bytes == []
      modifies file
      ensures file.bytes == Written(codec, order)
      ensures r.Ok? <==> WritableAll(codec, order)
    {
      assert order[..0] == [];
      for i := 0 to |order|
        invariant file.bytes == EncodeAll(codec, order[..i])
        invariant WritableCount(codec, order, 0) == WritableCount(codec, order, i)
        invariant forall j :: 0 <= j < i ==> Writable(codec, order[j].0, order[j].1)
      {
        var (k, v) := order[i];
        if !codec.writesKey(k) {
          assert EncodeAll(codec, order[..i]) + [] == EncodeAll(codec, order[..i]);
          return Err(TOO_LARGE);
        }
        var written := EncodeString(codec, k);
        file.bytes := file.bytes + written;
        if !codec.writesValue(v) {
          return Err(TOO_LARGE);
        }
        var value := codec.serialize(v);
        assert order[..i + 1][..i] == order[..i];
        assert EncodeRecord(codec, k, v) == written + EncodeInt32(|value|) + value;
        AppendTwice(EncodeAll(codec, order[..i]), written, EncodeInt32(|value|), value);
        file.bytes := file.bytes + EncodeInt32(|value|);
        file.bytes := file.bytes + value;
      }
      assert order[..|order|] == order;
      assert EncodeAll(codec, order) + [] == EncodeAll(codec, order);
      r := Ok(());
    }

    /** Under the range lock: re-reads the file, replays the pending operations on the map, and
        rewrites the file pair by pair. It succeeds exactly when the file could be read and every
        pair of the new map can be written; then the file holds the new map. An unreadable file is
        left alone; a pair that cannot be written leaves a file that does not hold the new map. */
    method Commit() returns (r: Result<(), Exn>)
      requires Faithful(codec)
      modifies this`position, file
      ensures old(Parse(codec, file.bytes)).Err? ==> r.Err? && file.bytes == old(file.bytes)
      ensures old(Parse(codec, file.bytes)).Ok? ==>
                var m := Fold(old(Parse(codec, file.bytes)).value, pendingOperations);
                && (r.Ok? <==> WritableMap(codec, m))
                && (Parse(codec, file.bytes) == Ok(m) <==> r.Ok?)
                && (r.Ok? ==> LeftByCommit(codec, file.bytes))
                && exists order :: Enumerates(order, m) && file.bytes == Written(codec, order)
    {
      var read := ReadAll();
      if read.Err? {
        return Err(read.error);
      }
      var snapshot := read.value;
      assert pendingOperations[..0] == [];
      for i := 0 to |pendingOperations|
        invariant snapshot == Fold(read.value, pendingOperations[..i])
      {
        assert pendingOperations[..i + 1][..i] == pendingOperations[..i];
        match pendingOperations[i]
        case Put(k, v) => snapshot := snapshot[k := v];
        case Remove(k) => snapshot := snapshot - {k};
      }
      assert pendingOperations[..|pendingOperations|] == pendingOperations;
      file.bytes, position := [], 0;
      var order := Enumerate(snapshot);
      CommitOf(codec, order, snapshot);
      EnumeratesWritable(codec, order, snapshot);
      r := WriteAll(order);
    }
  }

  lemma AppendTwice(a: seq<Byte>, b: seq<Byte>, c: seq<Byte>, d: seq<Byte>)
    ensures a + b + c + d == a + (b + c + d)
  {
  }
}

/** The binary records of the state file: a length-prefixed key, a 32-bit size, the value bytes. */
module RecordFormat {
  import opened Basics

  type Byte = b: int | 0 <= b < 256

  const FORMAT_ERROR := OtherException(10)
  const END_OF_STREAM := OtherException(11)
  const BAD_SIZE := OtherException(12)
  const TOO_LARGE := OtherException(13)

  /** UTF-8 and the message serializer, as far as the store depends on them. Either may throw, on
      what is too large for an array, say; `writesKey` and `writesValue` tell when it does not. */
  datatype Codec<!V> = Codec(
    writesKey: string -> bool, encodeKey: string -> seq<Byte>, decodeKey: seq<Byte> -> string,
    writesValue: V -> bool, serialize: V -> seq<Byte>, deserialize: seq<Byte> -> V)

  /** Decoding undoes every encoding that does not throw, and what such an encoding gives is an
      array, whose length is a 32-bit integer. */
  ghost predicate Faithful<V(!new)>(c: Codec<V>) {
    && (forall k :: c.writesKey(k) ==> c.decodeKey(c.encodeKey(k)) == k && |c.encodeKey(k)| < TWO_31)
    && (forall v :: c.writesValue(v) ==> c.deserialize(c.serialize(v)) == v && |c.serialize(v)| < TWO_31)
  }

  predicate Writable<V>(c: Codec<V>, k: string, v: V) {
    c.writesKey(k) && c.writesValue(v)
  }

  predicate WritableAll<V>(c: Codec<V>, rs: seq<(string, V)>) {
    forall i :: 0 <= i < |rs| ==> Writable(c, rs[i].0, rs[i].1)
  }

  // ---- Integers ----

  /** `Write7BitEncodedInt`: seven bits a byte, low bits first, high bit set on all but the last. */
  function EncodeLength(n: nat): (s: seq<Byte>)
    ensures |s| >= 1
  {
    if n < 128 then [n] else [n % 128 + 128] + EncodeLength(n / 128)
  }

  /** `Read7BitEncodedInt`; `k` bytes are read already, five are the most, and the fifth may only
      complete 32 bits. */
  function DecodeLength(f: seq<Byte>, pos: nat, k: nat): (r: Result<(nat, nat), Exn>)
    ensures r.Ok? ==> pos < r.value.1 <= |f|
    decreases |f| - pos
  {
    if k >= 5 then Err(FORMAT_ERROR)
    else if pos >= |f| then Err(END_OF_STREAM)
    else if k == 4 && f[pos] > 15 then Err(FORMAT_ERROR)
    else if f[pos] < 128 then Ok((f[pos], pos + 1))
    else
      var rest := DecodeLength(f, pos + 1, k + 1);
      if rest.Err? then rest else Ok((f[pos] - 128 + 128 * rest.value.0, rest.value.1))
  }

  function EncodeInt32(x: int): seq<Byte> {
    [x % 256, x / 256 % 256, x / 65536 % 256, x / 16777216 % 256]
  }

  function LittleEndian(a: int, b: int, c: int, d: int): int {
    a + 256 * b + 65536 * c + 16777216 * d
  }

  /** `ReadInt32`. */
  function DecodeInt32(f: seq<Byte>, pos: nat): (r: Result<(int, nat), Exn>)
    ensures r.Ok? ==> r.value.1 == pos + 4 <= |f|
  {
    if pos + 4 > |f| then Err(END_OF_STREAM)
    else
      var n := LittleEndian(f[pos], f[pos + 1], f[pos + 2], f[pos + 3]);
      Ok((if n < TWO_31 then n else n - TWO_32, pos + 4))
  }

  // ---- Records ----

  /** `ReadString`; a length with the sign bit is refused. */
  function DecodeKey<V>(c: Codec<V>, f: seq<Byte>, pos: nat): (r: Result<(string, nat), Exn>)
    ensures r.Ok? ==> pos < r.value.1 <= |f|
  {
    var length := DecodeLength(f, pos, 0);
    if length.Err? then Err(length.error)
    else
      var (n, start) := length.value;
      if n >= TWO_31 then Err(BAD_SIZE)
      else if start + n > |f| then Err(END_OF_STREAM)
      else Ok((c.decodeKey(f[start..start + n]), start + n))
  }

  /** The key, the size, and where the value bytes start. */
  datatype Header = Header(key: string, size: int, start: nat)

  function ReadHeader<V>(c: Codec<V>, f: seq<Byte>, pos: nat): (r: Result<Header, Exn>)
    ensures r.Ok? ==> pos < r.value.start <= |f|
  {
    var key := DecodeKey(c, f, pos);
    if key.Err? then Err(key.error)
    else
      var size := DecodeInt32(f, key.value.1);
      if size.Err? then Err(size.error) else Ok(Header(key.value.0, size.value.0, size.value.1))
  }

  /** `ReadBytes` returns fewer bytes at the end of the stream. */
  function ValueEnd(f: seq<Byte>, h: Header): (e: nat)
    requires h.size >= 0 && h.start <= |f|
    ensures h.start <= e <= |f|
  {
    if h.start + h.size <= |f| then h.start + h.size else |f|
  }

  /** The map that reading from `pos` to the end adds to `m`; a later record of a key wins. */
  function ParseFrom<V>(c: Codec<V>, f: seq<Byte>, pos: nat, m: map<string, V>): Result<map<string, V>, Exn>
    decreases |f| - pos
  {
    if pos >= |f| then Ok(m)
    else
      var h := ReadHeader(c, f, pos);
      if h.Err? then Err(h.error)
      else if h.value.size < 0 then Err(BAD_SIZE)
      else
        var e := ValueEnd(f, h.value);
        ParseFrom(c, f, e, m[h.value.key := c.deserialize(f[h.value.start..e])])
  }

  function Parse<V>(c: Codec<V>, f: seq<Byte>): Result<map<string, V>, Exn> {
    ParseFrom(c, f, 0, map[])
  }

  /** The early-exit scan: the header of the first record with `key`, skipping by size. */
  function ScanFrom<V>(c: Codec<V>, f: seq<Byte>, pos: nat, key: string): Result<Option<Header>, Exn>
    decreases |f| - pos
  {
    if pos >= |f| then Ok(None)
    else
      var h := ReadHeader(c, f, pos);
      if h.Err? then Err(h.error)
      else if h.value.key == key then Ok(Some(h.value))
      else if h.value.size < 0 then Err(BAD_SIZE)
      else ScanFrom(c, f, h.value.start + h.value.size, key)
  }

  /** `Write(string)`. */
  function EncodeString<V>(c: Codec<V>, k: string): seq<Byte> {
    EncodeLength(|c.encodeKey(k)|) + c.encodeKey(k)
  }

  function EncodeRecord<V>(c: Codec<V>, k: string, v: V): seq<Byte> {
    EncodeString(c, k) + EncodeInt32(|c.serialize(v)|) + c.serialize(v)
  }

  function EncodeAll<V>(c: Codec<V>, rs: seq<(string, V)>): seq<Byte> {
    if rs == [] then [] else EncodeAll(c, rs[..|rs| - 1]) + EncodeRecord(c, rs[|rs| - 1].0, rs[|rs| - 1].1)
  }

  /** The map that `rs` lists, a later pair winning. */
  function MapOf<V>(rs: seq<(string, V)>): map<string, V> {
    if rs == [] then map[] else MapOf(rs[..|rs| - 1])[rs[|rs| - 1].0 := rs[|rs| - 1].1]
  }

  predicate DistinctKeys<V>(rs: seq<(string, V)>) {
    forall i, j :: 0 <= i < j < |rs| ==> rs[i].0 != rs[j].0
  }

  /** What a commit can leave: each key of a map once, in any order. */
  ghost predicate Enumerates<V(!new)>(rs: seq<(string, V)>, m: map<string, V>) {
    DistinctKeys(rs) && MapOf(rs) == m
  }

  // ---- The layout of the bytes ----

  /** The number that groups of seven bits stand for, low group first. */
  function GroupsValue(e: seq<Byte>): nat {
    if e == [] then 0 else e[0] % 128 + 128 * GroupsValue(e[1..])
  }

  /** A length is written in the fewest groups of seven bits that hold it, low group first; the high bit
      is set on every byte but the last. */
  lemma {:induction false} LengthLayout(n: nat)
    ensures var e := EncodeLength(n);
            && GroupsValue(e) == n
            && (forall i :: 0 <= i < |e| - 1 ==> e[i] >= 128) && e[|e| - 1] < 128
            && (|e| > 1 ==> e[|e| - 1] > 0)
  {
    if n >= 128 {
      LengthLayout(n / 128);
      GroupsOneMore(n % 128 + 128, EncodeLength(n / 128));
    } else {
      GroupsOneMore(n, []);
      assert [n] + [] == EncodeLength(n);
    }
  }

  lemma GroupsOneMore(b: Byte, e: seq<Byte>)
    ensures GroupsValue([b] + e) == b % 128 + 128 * GroupsValue(e)
  {
    assert ([b] + e)[1..] == e;
  }

  /** A size is four bytes, the low byte first. */
  lemma Int32Layout(x: nat)
    requires x < TWO_31
    ensures var e: seq<int> := EncodeInt32(x);
            |e| == 4 && x == e[0] + 0x100 * e[1] + 0x1_0000 * e[2] + 0x100_0000 * e[3]
  {
    assert x / 65536 == x / 256 / 256 && x / 16777216 == x / 65536 / 256;
  }

  /** A record is the length of the key's bytes, these bytes, the size of the value, its bytes. */
  lemma RecordLayout<V>(c: Codec<V>, k: string, v: V)
    ensures var (r, key, value) := (EncodeRecord(c, k, v), c.encodeKey(k), c.serialize(v));
            var n := |EncodeLength(|key|)|;
            && |r| == n + |key| + 4 + |value|
            && r[..n] == EncodeLength(|key|) && r[n..n + |key|] == key
            && r[n + |key|..n + |key| + 4] == EncodeInt32(|value|) && r[n + |key| + 4..] == value
  {
    FourParts(EncodeLength(|c.encodeKey(k)|), c.encodeKey(k), EncodeInt32(|c.serialize(v)|), c.serialize(v));
  }

  lemma FourParts(a: seq<Byte>, b: seq<Byte>, c: seq<Byte>, d: seq<Byte>)
    ensures var r := a + b + c + d;
            && r[..|a|] == a && r[|a|..|a| + |b|] == b
            && r[|a| + |b|..|a| + |b| + |c|] == c && r[|a| + |b| + |c|..] == d
  {
  }

  /** One byte of a length that is not its last. */
  lemma LengthGoesOn(f: seq<Byte>, pos: nat, k: nat)
    requires k < 4 && pos < |f| && f[pos] >= 128
    ensures var rest := DecodeLength(f, pos + 1, k + 1);
            DecodeLength(f, pos, k) ==
            if rest.Err? then Err(rest.error) else Ok((f[pos] % 128 + 128 * rest.value.0, rest.value.1))
  {
  }

  /** A length of five bytes, `k` of them read already, is refused if the fifth holds more than the bits
      28 to 31, and read group by group otherwise. */
  lemma {:induction false} LengthRefused(f: seq<Byte>, pos: nat, k: nat)
    requires k < 5 && pos + 5 - k <= |f| && forall i :: pos <= i < pos + 4 - k ==> f[i] >= 128
    ensures var end := pos + 5 - k;
            DecodeLength(f, pos, k) ==
            if f[end - 1] <= 15 then Ok((GroupsValue(f[pos..end]), end)) else Err(FORMAT_ERROR)
    decreases 5 - k
  {
    GroupsFrom(f, pos, pos + 5 - k);
    if k < 4 {
      LengthGoesOn(f, pos, k);
      LengthRefused(f, pos + 1, k + 1);
    }
  }

  lemma GroupsFrom(f: seq<Byte>, i: nat, n: nat)
    requires i < n <= |f|
    ensures GroupsValue(f[i..n]) == f[i] % 128 + 128 * GroupsValue(f[i + 1..n])
  {
    assert f[i..n][1..] == f[i + 1..n];
  }

  // ---- Round trips ----

  function Pow128(j: nat): nat {
    if j == 0 then 1 else 128 * Pow128(j - 1)
  }

  /** `e` stands in `f` at `pos`. */
  predicate At(f: seq<Byte>, pos: nat, e: seq<Byte>) {
    pos + |e| <= |f| && f[pos..pos + |e|] == e
  }

  lemma AtParts(f: seq<Byte>, pos: nat, a: seq<Byte>, b: seq<Byte>)
    requires At(f, pos, a + b)
    ensures At(f, pos, a) && At(f, pos + |a|, b)
  {
    var whole := f[pos..pos + |a + b|];
    assert f[pos..pos + |a|] == whole[..|a|] && f[pos + |a|..pos + |a| + |b|] == whole[|a|..];
  }

  lemma {:induction false} LengthRoundTrip(f: seq<Byte>, pos: nat, n: nat, k: nat)
    requires k < 5 && n < 8 * Pow128(4 - k) && At(f, pos, EncodeLength(n))
    ensures DecodeLength(f, pos, k) == Ok((n, pos + |EncodeLength(n)|))
    decreases 5 - k
  {
    assert f[pos] == f[pos..pos + |EncodeLength(n)|][0];
    if n >= 128 {
      AtParts(f, pos, [n % 128 + 128], EncodeLength(n / 128));
      assert k < 4;
      LengthRoundTrip(f, pos + 1, n / 128, k + 1);
    }
  }

  lemma Int32RoundTrip(f: seq<Byte>, pos: nat, x: nat)
    requires x < TWO_31 && At(f, pos, EncodeInt32(x))
    ensures DecodeInt32(f, pos) == Ok((x, pos + 4))
  {
    var e := f[pos..pos + 4];
    assert f[pos] == e[0] && f[pos + 1] == e[1] && f[pos + 2] == e[2] && f[pos + 3] == e[3];
    assert x / 65536 == x / 256 / 256 && x / 16777216 == x / 65536 / 256;
  }

  lemma KeyRoundTrip<V(!new)>(c: Codec<V>, f: seq<Byte>, pos: nat, k: string)
    requires Faithful(c) && c.writesKey(k) && At(f, pos, EncodeString(c, k))
    ensures DecodeKey(c, f, pos) == Ok((k, pos + |EncodeString(c, k)|))
  {
    var key := c.encodeKey(k);
    AtParts(f, pos, EncodeLength(|key|), key);
    assert 8 * Pow128(4) == TWO_31 by { assert Pow128(2) == 16384; }
    LengthRoundTrip(f, pos, |key|, 0);
    var start := pos + |EncodeLength(|key|)|;
    assert DecodeLength(f, pos, 0) == Ok((|key|, start));
    assert f[start..start + |key|] == key;
  }

  /** A reader at `pos` finds the record of `k` and `v`, which ends at `next`. */
  predicate ReadsAs<V(==)>(c: Codec<V>, f: seq<Byte>, pos: nat, k: string, v: V, next: nat) {
    var h := ReadHeader(c, f, pos);
    && pos < next <= |f|
    && h.Ok? && h.value.key == k && h.value.size >= 0 && h.value.start + h.value.size == next
    && c.deserialize(f[h.value.start..next]) == v
  }

  lemma HeaderRoundTrip<V(!new)>(c: Codec<V>, f: seq<Byte>, pos: nat, k: string, size: nat, start: nat)
    requires Faithful(c) && c.writesKey(k) && At(f, pos, EncodeString(c, k))
    requires start == pos + |EncodeString(c, k)| + 4
    requires DecodeInt32(f, start - 4) == Ok((size, start))
    ensures ReadHeader(c, f, pos) == Ok(Header(k, size, start))
  {
    KeyRoundTrip(c, f, pos, k);
  }

  lemma RecordRoundTrip<V(!new)>(c: Codec<V>, f: seq<Byte>, pos: nat, k: string, v: V, next: nat)
    requires Faithful(c) && Writable(c, k, v) && At(f, pos, EncodeRecord(c, k, v)) && next == pos + |EncodeRecord(c, k, v)|
    ensures ReadsAs(c, f, pos, k, v, next)
  {
    var key, value := EncodeString(c, k), c.serialize(v);
    var size := EncodeInt32(|value|);
    var start := pos + |key| + 4;
    assert EncodeRecord(c, k, v) == key + size + value;
    AtParts(f, pos, key + size, value);
    AtParts(f, pos, key, size);
    Int32RoundTrip(f, pos + |key|, |value|);
    HeaderRoundTrip(c, f, pos, k, |value|, start);
    assert f[start..next] == value;
  }

  lemma {:induction false} EncodeAllPrefix<V>(c: Codec<V>, rs: seq<(string, V)>, i: nat)
    requires i <= |rs|
    ensures At(EncodeAll(c, rs), 0, EncodeAll(c, rs[..i]))
    decreases |rs|
  {
    if i == |rs| {
      assert rs[..i] == rs;
    } else {
      var n := |rs| - 1;
      EncodeAllPrefix(c, rs[..n], i);
      assert rs[..n][..i] == rs[..i];
      AtExtends(EncodeAll(c, rs[..n]), EncodeRecord(c, rs[n].0, rs[n].1), EncodeAll(c, rs[..i]));
    }
  }

  lemma AtExtends(f: seq<Byte>, g: seq<Byte>, e: seq<Byte>)
    requires At(f, 0, e)
    ensures At(f + g, 0, e)
  {
    assert (f + g)[0..|e|] == f[0..|e|];
  }

  lemma AtInside(f: seq<Byte>, g: seq<Byte>, pos: nat, e: seq<Byte>)
    requires At(f, 0, g) && At(g, pos, e)
    ensures At(f, pos, e)
  {
    assert f[pos..pos + |e|] == f[0..|g|][pos..pos + |e|];
  }

  function Offset<V>(c: Codec<V>, rs: seq<(string, V)>, i: nat): nat
    requires i <= |rs|
  {
    |EncodeAll(c, rs[..i])|
  }

  /** Record `i` stands where the encoding of its predecessors ends, and ends where the next starts. */
  lemma RecordAt<V>(c: Codec<V>, rs: seq<(string, V)>, i: nat)
    requires i < |rs|
    ensures At(EncodeAll(c, rs), Offset(c, rs, i), EncodeRecord(c, rs[i].0, rs[i].1))
    ensures Offset(c, rs, i + 1) == Offset(c, rs, i) + |EncodeRecord(c, rs[i].0, rs[i].1)|
  {
    var part := rs[..i + 1];
    assert part[..i] == rs[..i];
    EncodeAllPrefix(c, rs, i + 1);
    AtParts(EncodeAll(c, rs), 0, EncodeAll(c, rs[..i]), EncodeRecord(c, rs[i].0, rs[i].1));
  }

  /** In every file that begins with the records `rs`, reading finds record `i` at its offset. */
  lemma RecordReads<V(!new)>(c: Codec<V>, f: seq<Byte>, rs: seq<(string, V)>, i: nat)
    requires Faithful(c) && WritableAll(c, rs) && i < |rs| && At(f, 0, EncodeAll(c, rs))
    ensures ReadsAs(c, f, Offset(c, rs, i), rs[i].0, rs[i].1, Offset(c, rs, i + 1))
  {
    RecordAt(c, rs, i);
    AtInside(f, EncodeAll(c, rs), Offset(c, rs, i), EncodeRecord(c, rs[i].0, rs[i].1));
    RecordRoundTrip(c, f, Offset(c, rs, i), rs[i].0, rs[i].1, Offset(c, rs, i + 1));
  }

  /** One turn of the reading loop. */
  lemma ParseTurn<V>(c: Codec<V>, f: seq<Byte>, pos: nat, k: string, v: V, next: nat, m: map<string, V>)
    requires ReadsAs(c, f, pos, k, v, next)
    ensures ParseFrom(c, f, pos, m) == ParseFrom(c, f, next, m[k := v])
  {
    assert ValueEnd(f, ReadHeader(c, f, pos).value) == next;
  }

  /** Reading a file that begins with `rs` has `rs` in the map when it comes to what follows. */
  lemma {:induction false} ParseFromRecord<V(!new)>(c: Codec<V>, f: seq<Byte>, rs: seq<(string, V)>, i: nat)
    requires Faithful(c) && WritableAll(c, rs) && i <= |rs| && At(f, 0, EncodeAll(c, rs))
    ensures ParseFrom(c, f, Offset(c, rs, i), MapOf(rs[..i])) == ParseFrom(c, f, |EncodeAll(c, rs)|, MapOf(rs))
    decreases |rs| - i
  {
    if i == |rs| {
      assert rs[..i] == rs;
    } else {
      RecordReads(c, f, rs, i);
      ParseTurn(c, f, Offset(c, rs, i), rs[i].0, rs[i].1, Offset(c, rs, i + 1), MapOf(rs[..i]));
      assert rs[..i + 1][..i] == rs[..i];
      ParseFromRecord(c, f, rs, i + 1);
    }
  }

  /** Reading back what a commit wrote gives the map it wrote, in whatever order it wrote it. */
  lemma RoundTrip<V(!new)>(c: Codec<V>, rs: seq<(string, V)>)
    requires Faithful(c) && WritableAll(c, rs)
    ensures Parse(c, EncodeAll(c, rs)) == Ok(MapOf(rs))
  {
    assert rs[..0] == [];
    ParseFromRecord(c, EncodeAll(c, rs), rs, 0);
  }

  /** Of several records of one key the last one counts. */
  lemma {:induction false} LastRecordCounts<V>(rs: seq<(string, V)>, j: nat)
    requires j < |rs| && forall l :: j < l < |rs| ==> rs[l].0 != rs[j].0
    ensures rs[j].0 in MapOf(rs) && MapOf(rs)[rs[j].0] == rs[j].1
  {
    if j < |rs| - 1 { LastRecordCounts(rs[..|rs| - 1], j); }
  }

  /** A value that the end of the file cuts short is read as far as it goes. */
  lemma CutShortValue<V(!new)>(c: Codec<V>, rs: seq<(string, V)>, k: string, size: nat, part: seq<Byte>)
    requires Faithful(c) && WritableAll(c, rs) && c.writesKey(k) && |part| <= size < TWO_31
    ensures Parse(c, EncodeAll(c, rs) + (EncodeString(c, k) + EncodeInt32(size) + part)) ==
            Ok(MapOf(rs)[k := c.deserialize(part)])
  {
    var records, head := EncodeAll(c, rs), EncodeString(c, k) + EncodeInt32(size);
    var f := records + (head + part);
    assert rs[..0] == [];
    ParseFromRecord(c, f, rs, 0);
    MiddleOf(records, head, part);
    CutShortAt(c, f, |records|, k, size, part, MapOf(rs));
  }

  lemma MiddleOf(a: seq<Byte>, b: seq<Byte>, c: seq<Byte>)
    ensures At(a + (b + c), 0, a) && At(a + (b + c), |a|, b) && (a + (b + c))[|a| + |b|..] == c
  {
  }

  lemma CutShortAt<V(!new)>(c: Codec<V>, f: seq<Byte>, pos: nat, k: string, size: nat, part: seq<Byte>, m: map<string, V>)
    requires Faithful(c) && c.writesKey(k) && |part| <= size < TWO_31
    requires At(f, pos, EncodeString(c, k) + EncodeInt32(size))
    requires f[pos + |EncodeString(c, k) + EncodeInt32(size)|..] == part
    ensures ParseFrom(c, f, pos, m) == Ok(m[k := c.deserialize(part)])
  {
    var start := pos + |EncodeString(c, k)| + 4;
    AtParts(f, pos, EncodeString(c, k), EncodeInt32(size));
    Int32RoundTrip(f, start - 4, size);
    HeaderRoundTrip(c, f, pos, k, size, start);
    assert ValueEnd(f, Header(k, size, start)) == |f| && f[start..|f|] == part;
  }

  // ---- Writing that fails half way ----

  /** How many of the pairs can be written before the first that cannot. */
  function WritableCount<V>(c: Codec<V>, rs: seq<(string, V)>, i: nat): (n: nat)
    requires i <= |rs|
    ensures i <= n <= |rs|
    ensures forall j :: i <= j < n ==> Writable(c, rs[j].0, rs[j].1)
    ensures n < |rs| ==> !Writable(c, rs[n].0, rs[n].1)
    decreases |rs| - i
  {
    if i == |rs| || !Writable(c, rs[i].0, rs[i].1) then i else WritableCount(c, rs, i + 1)
  }

  /** What the writing loop leaves behind: it stops at the first pair that cannot be written, after
      that pair's key if only the value is at fault. */
  function Written<V>(c: Codec<V>, rs: seq<(string, V)>): seq<Byte> {
    var n := WritableCount(c, rs, 0);
    EncodeAll(c, rs[..n]) + (if n < |rs| && c.writesKey(rs[n].0) then EncodeString(c, rs[n].0) else [])
  }

  /** A key at the end of the file, without its value, fails the reader. */
  lemma TornKey<V(!new)>(c: Codec<V>, rs: seq<(string, V)>, k: string)
    requires Faithful(c) && WritableAll(c, rs) && c.writesKey(k)
    ensures Parse(c, EncodeAll(c, rs) + EncodeString(c, k)) == Err(END_OF_STREAM)
  {
    var records, key := EncodeAll(c, rs), EncodeString(c, k);
    var f := records + key;
    assert rs[..0] == [];
    ParseFromRecord(c, f, rs, 0);
    KeyRoundTrip(c, f, |records|, k);
  }

  /** The file holds the map that was to be written exactly when every pair can be written. If not,
      it either cannot be read any more or holds only the pairs written so far. */
  lemma WrittenHolds<V(!new)>(c: Codec<V>, rs: seq<(string, V)>)
    requires Faithful(c) && DistinctKeys(rs)
    ensures Parse(c, Written(c, rs)) == Ok(MapOf(rs)) <==> WritableAll(c, rs)
    ensures WritableAll(c, rs) ==> Written(c, rs) == EncodeAll(c, rs)
    ensures var n := WritableCount(c, rs, 0);
            n < |rs| ==>
              Parse(c, Written(c, rs)) == if c.writesKey(rs[n].0) then Err(END_OF_STREAM) else Ok(MapOf(rs[..n]))
  {
    var n := WritableCount(c, rs, 0);
    if n == |rs| {
      assert rs[..n] == rs;
      assert EncodeAll(c, rs) + [] == EncodeAll(c, rs);
      RoundTrip(c, rs);
    } else if c.writesKey(rs[n].0) {
      TornKey(c, rs[..n], rs[n].0);
    } else {
      assert EncodeAll(c, rs[..n]) + [] == EncodeAll(c, rs[..n]);
      RoundTrip(c, rs[..n]);
      DistinctMapOf(rs);
      DistinctMapOf(rs[..n]);
      assert rs[n].0 in MapOf(rs) && rs[n].0 !in MapOf(rs[..n]);
    }
  }

  ghost predicate WritableMap<V(!new)>(c: Codec<V>, m: map<string, V>) {
    forall k :: k in m ==> Writable(c, k, m[k])
  }

  lemma EnumeratesWritable<V(!new)>(c: Codec<V>, rs: seq<(string, V)>, m: map<string, V>)
    requires Enumerates(rs, m)
    ensures WritableAll(c, rs) <==> WritableMap(c, m)
  {
    DistinctMapOf(rs);
  }

  /** `h` heads the record `r`. */
  predicate Heads<V(==)>(c: Codec<V>, f: seq<Byte>, h: Header, r: (string, V)) {
    && h.key == r.0 && h.size >= 0 && h.start + h.size <= |f|
    && c.deserialize(f[h.start..h.start + h.size]) == r.1
  }

  /** The position in `rs` of the first record with `key`, from `i` on. */
  function FirstFrom<V>(rs: seq<(string, V)>, i: nat, key: string): (j: nat)
    requires i <= |rs|
    ensures i <= j <= |rs|
    ensures j < |rs| ==> rs[j].0 == key
    decreases |rs| - i
  {
    if i == |rs| || rs[i].0 == key then i else FirstFrom(rs, i + 1, key)
  }

  lemma {:induction false} FirstIsFirst<V>(rs: seq<(string, V)>, i: nat, key: string, l: nat)
    requires i <= l < |rs| && rs[l].0 == key
    ensures FirstFrom(rs, i, key) <= l
    decreases l - i
  {
    if rs[i].0 != key { FirstIsFirst(rs, i + 1, key, l); }
  }

  /** What a scan for the key of record `j` should return: its header, or nothing if there is none. */
  predicate ScansTo<V(==)>(c: Codec<V>, f: seq<Byte>, r: Result<Option<Header>, Exn>, rs: seq<(string, V)>, j: nat)
    requires j <= |rs|
  {
    if j == |rs| then r == Ok(None) else Hits(c, f, r, rs[j])
  }

  predicate Hits<V(==)>(c: Codec<V>, f: seq<Byte>, r: Result<Option<Header>, Exn>, record: (string, V)) {
    r.Ok? && r.value.Some? && Heads(c, f, r.value.value, record)
  }

  /** The records `rs` lie in `f` from its start to its end, record `i` at `at[i]`. */
  predicate Laid<V(==)>(c: Codec<V>, f: seq<Byte>, rs: seq<(string, V)>, at: seq<nat>) {
    && |at| == |rs| + 1 && at[|rs|] == |f|
    && forall i {:trigger rs[i]} :: 0 <= i < |rs| ==> ReadsAs(c, f, at[i], rs[i].0, rs[i].1, at[i + 1])
  }

  lemma RecordsLaid<V(!new)>(c: Codec<V>, rs: seq<(string, V)>) returns (at: seq<nat>)
    requires Faithful(c) && WritableAll(c, rs)
    ensures Laid(c, EncodeAll(c, rs), rs, at) && at[0] == 0
  {
    var f := EncodeAll(c, rs);
    at := seq(|rs| + 1, i requires 0 <= i <= |rs| => Offset(c, rs, i));
    assert rs[..|rs|] == rs && rs[..0] == [];
    assert At(f, 0, f);
    forall i | 0 <= i < |rs| ensures ReadsAs(c, f, at[i], rs[i].0, rs[i].1, at[i + 1]) {
      RecordReads(c, f, rs, i);
    }
  }

  /** One turn of the scanning loop. */
  lemma ScanTurn<V>(c: Codec<V>, f: seq<Byte>, pos: nat, r: (string, V), next: nat, key: string)
    requires ReadsAs(c, f, pos, r.0, r.1, next)
    ensures r.0 != key ==> ScanFrom(c, f, pos, key) == ScanFrom(c, f, next, key)
    ensures r.0 == key ==> Hits(c, f, ScanFrom(c, f, pos, key), r)
  {
    assert ReadHeader(c, f, pos).Ok?;
  }

  lemma {:induction false} ScanFromRecord<V>(
    c: Codec<V>, f: seq<Byte>, rs: seq<(string, V)>, at: seq<nat>, i: nat, key: string)
    requires Laid(c, f, rs, at) && i <= |rs|
    ensures ScansTo(c, f, ScanFrom(c, f, at[i], key), rs, FirstFrom(rs, i, key))
    decreases |rs| - i
  {
    if i < |rs| {
      var r := rs[i];
      ScanTurn(c, f, at[i], r, at[i + 1], key);
      if r.0 != key {
        ScanFromRecord(c, f, rs, at, i + 1, key);
      }
    }
  }

  lemma ScanOfRecords<V(!new)>(c: Codec<V>, rs: seq<(string, V)>, key: string)
    requires Faithful(c) && WritableAll(c, rs)
    ensures ScansTo(c, EncodeAll(c, rs), ScanFrom(c, EncodeAll(c, rs), 0, key), rs, FirstFrom(rs, 0, key))
  {
    var at := RecordsLaid(c, rs);
    ScanFromRecord(c, EncodeAll(c, rs), rs, at, 0, key);
  }

  lemma {:induction false} DistinctMapOf<V>(rs: seq<(string, V)>)
    requires DistinctKeys(rs)
    ensures forall j :: 0 <= j < |rs| ==> rs[j].0 in MapOf(rs) && MapOf(rs)[rs[j].0] == rs[j].1
    ensures forall k :: k in MapOf(rs) ==> exists j :: 0 <= j < |rs| && rs[j].0 == k
  {
    if rs != [] {
      var n := |rs| - 1;
      DistinctMapOf(rs[..n]);
      forall k | k in MapOf(rs) ensures exists j :: 0 <= j < |rs| && rs[j].0 == k {
        if k == rs[n].0 {
        } else {
          var j :| 0 <= j < n && rs[..n][j].0 == k;
          assert rs[j].0 == k;
        }
      }
    }
  }

  /** What a scan returns, as a lookup. */
  function FoundBy<V>(c: Codec<V>, f: seq<Byte>, r: Result<Option<Header>, Exn>): Option<V> {
    if r.Ok? && r.value.Some? && r.value.value.size >= 0 && r.value.value.start <= |f|
    then Some(c.deserialize(f[r.value.value.start..ValueEnd(f, r.value.value)])) else None
  }

  function Found<V>(c: Codec<V>, f: seq<Byte>, key: string): Option<V> {
    FoundBy(c, f, ScanFrom(c, f, 0, key))
  }

  lemma ScanIsLookup<V>(c: Codec<V>, f: seq<Byte>, rs: seq<(string, V)>, r: Result<Option<Header>, Exn>, key: string)
    requires DistinctKeys(rs) && ScansTo(c, f, r, rs, FirstFrom(rs, 0, key))
    ensures r.value.Some? <==> key in MapOf(rs)
    ensures FoundBy(c, f, r) == if key in MapOf(rs) then Some(MapOf(rs)[key]) else None
  {
    FirstIsLookup(rs, key);
    if r.value.Some? {
      assert ValueEnd(f, r.value.value) == r.value.value.start + r.value.value.size;
    }
  }

  lemma FirstIsLookup<V>(rs: seq<(string, V)>, key: string)
    requires DistinctKeys(rs)
    ensures var j := FirstFrom(rs, 0, key);
            if j == |rs| then key !in MapOf(rs) else key in MapOf(rs) && MapOf(rs)[key] == rs[j].1
  {
    DistinctMapOf(rs);
    if key in MapOf(rs) {
      var l :| 0 <= l < |rs| && rs[l].0 == key;
      FirstIsFirst(rs, 0, key, l);
    }
  }

  /** On every file that a commit can leave, the early-exit scan agrees with looking the key up in
      the fully parsed map: the first match is the last, and skipping stays on record boundaries. */
  lemma ScanRefinesLookup<V(!new)>(c: Codec<V>, rs: seq<(string, V)>, key: string)
    requires Faithful(c) && DistinctKeys(rs) && WritableAll(c, rs)
    ensures var f := EncodeAll(c, rs);
            && ScanFrom(c, f, 0, key).Ok?
            && Parse(c, f).Ok?
            && (ScanFrom(c, f, 0, key).value.Some? <==> key in Parse(c, f).value)
            && Found(c, f, key) == if key in Parse(c, f).value then Some(Parse(c, f).value[key]) else None
  {
    var f := EncodeAll(c, rs);
    RoundTrip(c, rs);
    ScanOfRecords(c, rs, key);
    ScanIsLookup(c, f, rs, ScanFrom(c, f, 0, key), key);
  }

  // ---- A codec ----

  /** Three bytes a character. */
  function EncodeChars(s: string): (e: seq<Byte>)
    ensures |e| == 3 * |s|
  {
    if s == [] then [] else
      var x := s[0] as int;
      [x % 256, x / 256 % 256, x / 65536 % 256] + EncodeChars(s[1..])
  }

  function DecodeChars(e: seq<Byte>): string {
    if |e| < 3 then []
    else
      var x := LittleEndian(e[0], e[1], e[2], 0);
      [if x < 0xD800 || 0xE000 <= x < 0x11_0000 then x as char else '?'] + DecodeChars(e[3..])
  }

  lemma CharRoundTrip(x: nat)
    requires x < 0x100_0000
    ensures LittleEndian(x % 256, x / 256 % 256, x / 65536 % 256, 0) == x
  {
    assert x / 65536 == x / 256 / 256;
  }

  lemma CharStep(x: nat, rest: seq<Byte>)
    requires x < 0xD800 || 0xE000 <= x < 0x11_0000
    ensures DecodeChars([x % 256, x / 256 % 256, x / 65536 % 256] + rest) == [x as char] + DecodeChars(rest)
  {
    CharRoundTrip(x);
    assert ([x % 256, x / 256 % 256, x / 65536 % 256] + rest)[3..] == rest;
  }

  lemma {:induction false} CharsRoundTrip(s: string)
    ensures DecodeChars(EncodeChars(s)) == s
  {
    if s != [] {
      CharsRoundTrip(s[1..]);
      CharStep(s[0] as int, EncodeChars(s[1..]));
    }
  }

  /** Values that are bytes already, and keys of fixed-width characters; what is too large throws. */
  const FIXED_WIDTH: Codec<seq<Byte>> :=
    Codec(k => 3 * |k| < TWO_31, k => EncodeChars(k), e => DecodeChars(e), v => |v| < TWO_31, v => v, e => e)

  /** The laws that the file store asks of its codec can be met. */
  lemma FixedWidthIsFaithful()
    ensures Faithful(FIXED_WIDTH)
    ensures forall k, v :: 3 * |k| < TWO_31 && |v| < TWO_31 ==> Writable(FIXED_WIDTH, k, v)
  {
    forall k ensures DecodeChars(EncodeChars(k)) == k {
      CharsRoundTrip(k);
    }
  }
}

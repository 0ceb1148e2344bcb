/** The serialisers and deserialisers of waddrmgr/db.go, as they fill and read byte buffers
    at a moving offset, proved against the row formats. */
module RowCodecs {
  import opened Bytes
  import opened Optional
  import opened Rows

  /** How a deserialiser ends: with a row, with one of its error returns, or by running off
      the end of its input. */
  datatype Read<T> = Ok(value: T) | Malformed | OutOfRange | EndOfInput | Unsupported

  /** The result of reading a row of at least `min` bytes; `short` is how it fails when the
      lengths in it point past the end. */
  function Outcome<T>(raw: seq<Byte>, min: nat, row: Option<(T, seq<Byte>)>, short: Read<T>): Read<T> {
    if |raw| < min then Malformed else match row case Some((r, _)) => Ok(r) case None => short
  }

  /** A row that is too short is malformed, whatever it holds, and no other is. */
  lemma OutcomeMeans<T>(raw: seq<Byte>, min: nat, row: Option<(T, seq<Byte>)>, short: Read<T>)
    requires !short.Ok? && !short.Malformed?
    ensures Outcome(raw, min, row, short).Malformed? <==> |raw| < min
    ensures forall v :: Outcome(raw, min, row, short) == Ok(v) <==> |raw| >= min && row.Some? && row.value.0 == v
    ensures |raw| >= min && row.None? ==> Outcome(raw, min, row, short) == short
  {
  }

  method SerializeAccountRow(row: AccountRow) returns (buf: array<Byte>)
    ensures fresh(buf) && buf[..] == EncAccount(row, [])
  {
    buf := new Byte[5 + |row.rawData|];
    var offset := PutByte(buf, 0, row.acctType, Blob(row.rawData, []));
    offset := PutBlob(buf, offset, row.rawData, []);
    assert buf[..] == buf[..offset] + [] == [] + EncAccount(row, []);
  }

  method DeserializeAccountRow(raw: seq<Byte>) returns (r: Read<AccountRow>)
    ensures r == Outcome(raw, 5, DecAccount(raw), OutOfRange)
  {
    if |raw| < 5 {
      return Malformed;
    }
    var data, _ := BlobAt(raw, 1);
    r := if data.Some? then Ok(AccountRow(raw[0], data.value)) else OutOfRange;
  }

  method SerializeDefaultAccountRow(row: DefaultAccount) returns (rawData: array<Byte>)
    requires Fits32(|EncDefault(row, [])|)
    ensures fresh(rawData) && rawData[..] == EncDefault(row, [])
  {
    rawData := new Byte[20 + |row.pubKey| + |row.privKey| + |row.name|];
    ghost var t4 := Blob(row.name, []);
    ghost var t3 := Num(row.nextInternal, 4, t4);
    ghost var t2 := Num(row.nextExternal, 4, t3);
    var offset := PutBlob(rawData, 0, row.pubKey, Blob(row.privKey, t2));
    offset := PutBlob(rawData, offset, row.privKey, t2);
    offset := PutNum(rawData, offset, row.nextExternal, 4, t3);
    offset := PutNum(rawData, offset, row.nextInternal, 4, t4);
    offset := PutBlob(rawData, offset, row.name, []);
    assert rawData[..] == rawData[..offset] + [] == [] + EncDefault(row, []);
  }

  method DeserializeDefaultAccountRow(raw: seq<Byte>) returns (r: Read<DefaultAccount>)
    ensures r == Outcome(raw, 20, DecDefault(raw), OutOfRange)
  {
    if |raw| < 20 {
      return Malformed;
    }
    assert raw[0..] == raw;
    var pubKey, offset := BlobAt(raw, 0);
    if pubKey.None? { return OutOfRange; }
    var privKey, nextExternal, nextInternal, name;
    privKey, offset := BlobAt(raw, offset);
    if privKey.None? { return OutOfRange; }
    nextExternal, offset := NumAt(raw, offset, 4);
    if nextExternal.None? { return OutOfRange; }
    nextInternal, offset := NumAt(raw, offset, 4);
    if nextInternal.None? { return OutOfRange; }
    name, offset := BlobAt(raw, offset);
    if name.None? { return OutOfRange; }
    r := Ok(DefaultAccount(pubKey.value, privKey.value, nextExternal.value, nextInternal.value, name.value));
  }

  method SerializeWatchOnlyAccountRow(row: WatchOnlyAccount) returns (buf: seq<Byte>)
    requires Fits32(|EncWatchOnly(row, 1, [])|)
    ensures buf == EncWatchOnly(row, if row.schema.Some? then 1 else 0, [])
  {
    buf := Little(|row.pubKey|, 4) + row.pubKey;
    buf := buf + Little(row.fingerprint, 4);
    buf := buf + Little(row.nextExternal, 4);
    buf := buf + Little(row.nextInternal, 4);
    buf := buf + Little(|row.name|, 4);
    buf := buf + row.name;
    buf := buf + [if row.schema.Some? then 1 else 0];
    if row.schema.Some? {
      buf := buf + [row.schema.value.internal, row.schema.value.external];
    }
  }

  method DeserializeWatchOnlyAccountRow(raw: seq<Byte>) returns (r: Read<WatchOnlyAccount>)
    ensures r == Outcome(raw, 21, DecWatchOnly(raw), EndOfInput)
  {
    if |raw| < 21 {
      return Malformed;
    }
    assert raw[0..] == raw;
    var pubKey, offset := BlobAt(raw, 0);
    if pubKey.None? { return EndOfInput; }
    var fingerprint, nextExternal, nextInternal, name;
    fingerprint, offset := NumAt(raw, offset, 4);
    if fingerprint.None? { return EndOfInput; }
    nextExternal, offset := NumAt(raw, offset, 4);
    if nextExternal.None? { return EndOfInput; }
    nextInternal, offset := NumAt(raw, offset, 4);
    if nextInternal.None? { return EndOfInput; }
    name, offset := BlobAt(raw, offset);
    if name.None? { return EndOfInput; }
    var schema := SchemaAt(raw, offset);
    if schema.None? { return EndOfInput; }
    r := Ok(WatchOnlyAccount(
      pubKey.value, fingerprint.value, nextExternal.value, nextInternal.value, name.value, schema.value));
  }

  /** The flag that says whether an address schema follows, and the schema if it does. */
  method SchemaAt(raw: seq<Byte>, offset: nat) returns (schema: Option<Option<Schema>>)
    requires offset <= |raw|
    ensures schema == match DecSchema(raw[offset..]) case Some((s, _)) => Some(s) case None => None
  {
    if offset == |raw| {
      return None;
    }
    if raw[offset] == 0 {
      return Some(None);
    }
    if |raw| - offset < 3 {
      return None;
    }
    schema := Some(Some(Schema(raw[offset + 1], raw[offset + 2])));
  }

  method SerializeAddressRow(row: AddressRow) returns (buf: array<Byte>)
    ensures fresh(buf) && buf[..] == EncAddress(row, [])
  {
    buf := new Byte[18 + |row.rawData|];
    ghost var t3 := Blob(row.rawData, []);
    ghost var t2 := [row.syncStatus] + t3;
    ghost var t1 := Num(row.addTime, 8, t2);
    var offset := PutByte(buf, 0, row.addrType, Num(row.account, 4, t1));
    offset := PutNum(buf, offset, row.account, 4, t1);
    offset := PutNum(buf, offset, row.addTime, 8, t2);
    offset := PutByte(buf, offset, row.syncStatus, t3);
    offset := PutBlob(buf, offset, row.rawData, []);
    assert buf[..] == buf[..offset] + [] == [] + EncAddress(row, []);
  }

  method DeserializeAddressRow(raw: seq<Byte>) returns (r: Read<AddressRow>)
    ensures r == Outcome(raw, 18, DecAddress(raw), OutOfRange)
  {
    if |raw| < 18 {
      return Malformed;
    }
    var account, timeAt := NumAt(raw, 1, 4);
    var addTime, statusAt := NumAt(raw, timeAt, 8);
    assert raw[statusAt..][1..] == raw[statusAt + 1..];
    var data, _ := BlobAt(raw, statusAt + 1);
    r := if data.Some? then Ok(AddressRow(raw[0], account.value, addTime.value, raw[statusAt], data.value)) else OutOfRange;
  }

  method SerializeChainedAddress(row: ChainAddress) returns (rawData: array<Byte>)
    ensures fresh(rawData) && rawData[..] == EncChain(row)
  {
    rawData := new Byte[8];
    var offset := PutNum(rawData, 0, row.branch, 4, Num(row.index, 4, []));
    offset := PutNum(rawData, offset, row.index, 4, []);
    assert rawData[..] == rawData[..offset] + [] == [] + EncChain(row);
  }

  method DeserializeChainedAddress(raw: seq<Byte>) returns (r: Read<ChainAddress>)
    ensures r == match DecChain(raw) case Some(row) => Ok(row) case None => Malformed
  {
    if |raw| != 8 {
      return Malformed;
    }
    r := Ok(ChainAddress(Value(raw[..4]), Value(raw[4..])));
  }

  /** Imported keys and scripts have the same format. */
  method SerializePairAddress(row: PairAddress) returns (rawData: array<Byte>)
    requires Fits32(|EncPair(row, [])|)
    ensures fresh(rawData) && rawData[..] == EncPair(row, [])
  {
    rawData := new Byte[8 + |row.public| + |row.secret|];
    var offset := PutBlob(rawData, 0, row.public, Blob(row.secret, []));
    offset := PutBlob(rawData, offset, row.secret, []);
    assert rawData[..] == rawData[..offset] + [] == [] + EncPair(row, []);
  }

  method DeserializePairAddress(raw: seq<Byte>) returns (r: Read<PairAddress>)
    ensures r == Outcome(raw, 8, DecPair(raw), OutOfRange)
  {
    if |raw| < 8 {
      return Malformed;
    }
    assert raw[0..] == raw;
    var public, offset := BlobAt(raw, 0);
    if public.None? { return OutOfRange; }
    var secret, _ := BlobAt(raw, offset);
    r := if secret.Some? then Ok(PairAddress(public.value, secret.value)) else OutOfRange;
  }

  method SerializeWitnessScriptAddress(row: WitnessAddress) returns (rawData: array<Byte>)
    requires Fits32(|EncWitness(row, 0, [])|)
    ensures fresh(rawData) && rawData[..] == EncWitness(row, if row.isSecret then 1 else 0, [])
  {
    rawData := new Byte[10 + |row.hash| + |row.script|];
    rawData[0] := row.version;
    rawData[1] := if row.isSecret then 1 else 0;
    assert rawData[..2] == [row.version, if row.isSecret then 1 else 0];
    var offset := PutBlob(rawData, 2, row.hash, Blob(row.script, []));
    offset := PutBlob(rawData, offset, row.script, []);
    assert rawData[..] == rawData[..offset] + [];
  }

  method DeserializeWitnessScriptAddress(raw: seq<Byte>) returns (r: Read<WitnessAddress>)
    ensures r == Outcome(raw, 10, DecWitness(raw), OutOfRange)
  {
    if |raw| < 10 {
      return Malformed;
    }
    var hash, offset := BlobAt(raw, 2);
    if hash.None? { return OutOfRange; }
    var script, _ := BlobAt(raw, offset);
    r := if script.Some? then Ok(WitnessAddress(raw[0], raw[1] == 1, hash.value, script.value)) else OutOfRange;
  }
}

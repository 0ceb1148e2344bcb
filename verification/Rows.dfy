/** The account and address rows of the address manager's database, as bytes
    (waddrmgr/db.go). For every kind of row: what is written, followed by a rest; what is
    read, with the rest; and that the two are exact inverses. */
module Rows {
  import opened Bytes
  import opened Optional

  datatype Schema = Schema(internal: Byte, external: Byte)

  datatype AccountRow = AccountRow(acctType: Byte, rawData: seq<Byte>)

  datatype DefaultAccount = DefaultAccount(
    pubKey: seq<Byte>, privKey: seq<Byte>, nextExternal: nat, nextInternal: nat, name: seq<Byte>)

  datatype WatchOnlyAccount = WatchOnlyAccount(
    pubKey: seq<Byte>, fingerprint: nat, nextExternal: nat, nextInternal: nat, name: seq<Byte>, schema: Option<Schema>)

  datatype AddressRow = AddressRow(addrType: Byte, account: nat, addTime: nat, syncStatus: Byte, rawData: seq<Byte>)

  datatype ChainAddress = ChainAddress(branch: nat, index: nat)

  /** Imported keys and scripts: a public part and a secret one. */
  datatype PairAddress = PairAddress(public: seq<Byte>, secret: seq<Byte>)

  datatype WitnessAddress = WitnessAddress(version: Byte, isSecret: bool, hash: seq<Byte>, script: seq<Byte>)

  predicate Fits32(n: nat) { n < TWO_TO_THE_32 }

  // Account rows.

  predicate FitsAccount(row: AccountRow) { Fits32(|row.rawData|) }

  function EncAccount(row: AccountRow, tail: seq<Byte>): seq<Byte> {
    [row.acctType] + Blob(row.rawData, tail)
  }

  function DecAccount(raw: seq<Byte>): Option<(AccountRow, seq<Byte>)> {
    if raw == [] then None
    else match ReadBlob(raw[1..])
      case Some((data, tail)) => Some((AccountRow(raw[0], data), tail))
      case None => None
  }

  lemma AccountExactly(raw: seq<Byte>, row: AccountRow, tail: seq<Byte>)
    ensures DecAccount(raw) == Some((row, tail)) <==> FitsAccount(row) && raw == EncAccount(row, tail)
  {
    if raw != [] {
      BlobExactly(raw[1..], row.rawData, tail);
      assert raw == [raw[0]] + raw[1..];
    }
  }

  predicate FitsDefault(row: DefaultAccount) {
    && Fits32(|row.pubKey|) && Fits32(|row.privKey|) && Fits32(|row.name|)
    && Fits32(row.nextExternal) && Fits32(row.nextInternal)
  }

  function EncDefault(row: DefaultAccount, tail: seq<Byte>): (r: seq<Byte>)
    ensures |r| == 20 + |row.pubKey| + |row.privKey| + |row.name| + |tail|
  {
    Blob(row.pubKey, Blob(row.privKey, Num(row.nextExternal, 4, Num(row.nextInternal, 4, Blob(row.name, tail)))))
  }

  function DecDefault(raw: seq<Byte>): Option<(DefaultAccount, seq<Byte>)> {
    match ReadBlob(raw)
    case None => None
    case Some((pubKey, r1)) =>
      match ReadBlob(r1)
      case None => None
      case Some((privKey, r2)) =>
        match ReadNum(r2, 4)
        case None => None
        case Some((external, r3)) =>
          match ReadNum(r3, 4)
          case None => None
          case Some((internal, r4)) =>
            match ReadBlob(r4)
            case None => None
            case Some((name, tail)) => Some((DefaultAccount(pubKey, privKey, external, internal, name), tail))
  }

  lemma DefaultExactly(raw: seq<Byte>, row: DefaultAccount, tail: seq<Byte>)
    ensures DecDefault(raw) == Some((row, tail)) <==> FitsDefault(row) && raw == EncDefault(row, tail)
  {
    var t4 := Blob(row.name, tail);
    var t3 := Num(row.nextInternal, 4, t4);
    var t2 := Num(row.nextExternal, 4, t3);
    var t1 := Blob(row.privKey, t2);
    Powers();
    BlobExactly(raw, row.pubKey, t1);
    BlobExactly(t1, row.privKey, t2);
    NumExactly(t2, 4, row.nextExternal, t3);
    NumExactly(t3, 4, row.nextInternal, t4);
    BlobExactly(t4, row.name, tail);
    if DecDefault(raw) == Some((row, tail)) {
      var r1 := ReadBlob(raw).value.1;
      BlobExactly(raw, row.pubKey, r1);
      var r2 := ReadBlob(r1).value.1;
      BlobExactly(r1, row.privKey, r2);
      var r3 := ReadNum(r2, 4).value.1;
      NumExactly(r2, 4, row.nextExternal, r3);
      var r4 := ReadNum(r3, 4).value.1;
      NumExactly(r3, 4, row.nextInternal, r4);
      BlobExactly(r4, row.name, tail);
    }
  }

  predicate FitsWatchOnly(row: WatchOnlyAccount) {
    && Fits32(|row.pubKey|) && Fits32(|row.name|)
    && Fits32(row.fingerprint) && Fits32(row.nextExternal) && Fits32(row.nextInternal)
  }

  /** The flag byte that says whether an address schema follows. */
  predicate FlagFor(flag: Byte, schema: Option<Schema>) {
    flag != 0 <==> schema.Some?
  }

  function EncSchema(flag: Byte, schema: Option<Schema>, tail: seq<Byte>): seq<Byte> {
    [flag] + (if schema.Some? then [schema.value.internal, schema.value.external] else []) + tail
  }

  function EncWatchOnly(row: WatchOnlyAccount, flag: Byte, tail: seq<Byte>): (r: seq<Byte>)
    ensures |r| >= 21 + |row.pubKey| + |row.name| + |tail|
  {
    Blob(row.pubKey, Num(row.fingerprint, 4, Num(row.nextExternal, 4, Num(row.nextInternal, 4,
      Blob(row.name, EncSchema(flag, row.schema, tail))))))
  }

  function DecSchema(raw: seq<Byte>): Option<(Option<Schema>, seq<Byte>)> {
    if raw == [] then None
    else if raw[0] == 0 then Some((None, raw[1..]))
    else if |raw| < 3 then None
    else Some((Some(Schema(raw[1], raw[2])), raw[3..]))
  }

  function DecWatchOnly(raw: seq<Byte>): Option<(WatchOnlyAccount, seq<Byte>)> {
    match ReadBlob(raw)
    case None => None
    case Some((pubKey, r1)) =>
      match ReadNum(r1, 4)
      case None => None
      case Some((fingerprint, r2)) =>
        match ReadNum(r2, 4)
        case None => None
        case Some((external, r3)) =>
          match ReadNum(r3, 4)
          case None => None
          case Some((internal, r4)) =>
            match ReadBlob(r4)
            case None => None
            case Some((name, r5)) =>
              match DecSchema(r5)
              case None => None
              case Some((schema, tail)) =>
                Some((WatchOnlyAccount(pubKey, fingerprint, external, internal, name, schema), tail))
  }

  lemma SchemaExactly(raw: seq<Byte>, flag: Byte, schema: Option<Schema>, tail: seq<Byte>)
    ensures DecSchema(raw) == Some((schema, tail)) && raw[0] == flag <==>
              FlagFor(flag, schema) && raw == EncSchema(flag, schema, tail)
  {
    if raw != [] {
      assert raw == [raw[0]] + raw[1..];
      if |raw| >= 3 {
        assert raw == [raw[0]] + [raw[1], raw[2]] + raw[3..];
      }
    }
  }

  lemma WatchOnlyExactly(raw: seq<Byte>, row: WatchOnlyAccount, tail: seq<Byte>)
    ensures DecWatchOnly(raw) == Some((row, tail)) <==>
              FitsWatchOnly(row) && exists flag: Byte :: FlagFor(flag, row.schema) && raw == EncWatchOnly(row, flag, tail)
  {
    Powers();
    forall flag: Byte | FitsWatchOnly(row) && FlagFor(flag, row.schema) && raw == EncWatchOnly(row, flag, tail)
      ensures DecWatchOnly(raw) == Some((row, tail))
    {
      var t5 := EncSchema(flag, row.schema, tail);
      var t4 := Blob(row.name, t5);
      var t3 := Num(row.nextInternal, 4, t4);
      var t2 := Num(row.nextExternal, 4, t3);
      var t1 := Num(row.fingerprint, 4, t2);
      BlobExactly(raw, row.pubKey, t1);
      NumExactly(t1, 4, row.fingerprint, t2);
      NumExactly(t2, 4, row.nextExternal, t3);
      NumExactly(t3, 4, row.nextInternal, t4);
      BlobExactly(t4, row.name, t5);
      SchemaExactly(t5, flag, row.schema, tail);
    }
    if DecWatchOnly(raw) == Some((row, tail)) {
      var r1 := ReadBlob(raw).value.1;
      BlobExactly(raw, row.pubKey, r1);
      var r2 := ReadNum(r1, 4).value.1;
      NumExactly(r1, 4, row.fingerprint, r2);
      var r3 := ReadNum(r2, 4).value.1;
      NumExactly(r2, 4, row.nextExternal, r3);
      var r4 := ReadNum(r3, 4).value.1;
      NumExactly(r3, 4, row.nextInternal, r4);
      var r5 := ReadBlob(r4).value.1;
      BlobExactly(r4, row.name, r5);
      SchemaExactly(r5, r5[0], row.schema, tail);
    }
  }

  // Address rows.

  predicate FitsAddress(row: AddressRow) {
    Fits32(row.account) && row.addTime < TWO_TO_THE_64 && Fits32(|row.rawData|)
  }

  function EncAddress(row: AddressRow, tail: seq<Byte>): seq<Byte> {
    [row.addrType] + Num(row.account, 4, Num(row.addTime, 8, [row.syncStatus] + Blob(row.rawData, tail)))
  }

  function DecAddress(raw: seq<Byte>): Option<(AddressRow, seq<Byte>)> {
    if raw == [] then None
    else
      match ReadNum(raw[1..], 4)
      case None => None
      case Some((account, r1)) =>
        match ReadNum(r1, 8)
        case None => None
        case Some((addTime, r2)) =>
          if r2 == [] then None
          else
            match ReadBlob(r2[1..])
            case None => None
            case Some((data, tail)) => Some((AddressRow(raw[0], account, addTime, r2[0], data), tail))
  }

  lemma AddressExactly(raw: seq<Byte>, row: AddressRow, tail: seq<Byte>)
    ensures DecAddress(raw) == Some((row, tail)) <==> FitsAddress(row) && raw == EncAddress(row, tail)
  {
    Powers();
    var t2 := [row.syncStatus] + Blob(row.rawData, tail);
    var t1 := Num(row.addTime, 8, t2);
    if raw != [] {
      assert raw == [raw[0]] + raw[1..];
      NumExactly(raw[1..], 4, row.account, t1);
      NumExactly(t1, 8, row.addTime, t2);
      BlobExactly(t2[1..], row.rawData, tail);
      if DecAddress(raw) == Some((row, tail)) {
        var r1 := ReadNum(raw[1..], 4).value.1;
        NumExactly(raw[1..], 4, row.account, r1);
        var r2 := ReadNum(r1, 8).value.1;
        NumExactly(r1, 8, row.addTime, r2);
        BlobExactly(r2[1..], row.rawData, tail);
        assert r2 == [r2[0]] + r2[1..];
      }
    }
  }

  function EncChain(row: ChainAddress): seq<Byte> {
    Num(row.branch, 4, Num(row.index, 4, []))
  }

  function DecChain(raw: seq<Byte>): Option<ChainAddress> {
    if |raw| != 8 then None else Some(ChainAddress(Value(raw[..4]), Value(raw[4..])))
  }

  lemma ChainExactly(raw: seq<Byte>, row: ChainAddress)
    ensures DecChain(raw) == Some(row) <==> Fits32(row.branch) && Fits32(row.index) && raw == EncChain(row)
  {
    Powers();
    if |raw| == 8 {
      NumExactly(raw, 4, row.branch, raw[4..]);
      NumExactly(raw[4..], 4, row.index, []);
      assert raw[4..][..4] == raw[4..] && raw[4..][4..] == [];
    }
    assert raw == EncChain(row) ==> raw[4..] == Num(row.index, 4, []);
  }

  predicate FitsPair(row: PairAddress) { Fits32(|row.public|) && Fits32(|row.secret|) }

  function EncPair(row: PairAddress, tail: seq<Byte>): (r: seq<Byte>)
    ensures |r| == 8 + |row.public| + |row.secret| + |tail|
  {
    Blob(row.public, Blob(row.secret, tail))
  }

  function DecPair(raw: seq<Byte>): Option<(PairAddress, seq<Byte>)> {
    match ReadBlob(raw)
    case None => None
    case Some((public, r1)) =>
      match ReadBlob(r1)
      case None => None
      case Some((secret, tail)) => Some((PairAddress(public, secret), tail))
  }

  lemma PairExactly(raw: seq<Byte>, row: PairAddress, tail: seq<Byte>)
    ensures DecPair(raw) == Some((row, tail)) <==> FitsPair(row) && raw == EncPair(row, tail)
  {
    var t1 := Blob(row.secret, tail);
    BlobExactly(raw, row.public, t1);
    BlobExactly(t1, row.secret, tail);
    if DecPair(raw) == Some((row, tail)) {
      var r1 := ReadBlob(raw).value.1;
      BlobExactly(raw, row.public, r1);
      BlobExactly(r1, row.secret, tail);
    }
  }

  predicate FitsWitness(row: WitnessAddress) { Fits32(|row.hash|) && Fits32(|row.script|) }

  function EncWitness(row: WitnessAddress, secretByte: Byte, tail: seq<Byte>): (r: seq<Byte>)
    ensures |r| == 10 + |row.hash| + |row.script| + |tail|
  {
    [row.version, secretByte] + EncPair(PairAddress(row.hash, row.script), tail)
  }

  function DecWitness(raw: seq<Byte>): Option<(WitnessAddress, seq<Byte>)> {
    if |raw| < 2 then None
    else match DecPair(raw[2..])
      case Some((pair, tail)) => Some((WitnessAddress(raw[0], raw[1] == 1, pair.public, pair.secret), tail))
      case None => None
  }

  lemma WitnessExactly(raw: seq<Byte>, row: WitnessAddress, tail: seq<Byte>)
    ensures DecWitness(raw) == Some((row, tail)) <==>
              && FitsWitness(row)
              && exists secretByte: Byte :: (secretByte == 1 <==> row.isSecret) && raw == EncWitness(row, secretByte, tail)
  {
    if |raw| >= 2 {
      var pair := PairAddress(row.hash, row.script);
      PairExactly(raw[2..], pair, tail);
      assert raw == [raw[0], raw[1]] + raw[2..];
      if DecWitness(raw) == Some((row, tail)) {
        assert (raw[1] == 1 <==> row.isSecret) && raw == EncWitness(row, raw[1], tail);
      }
    }
  }
}

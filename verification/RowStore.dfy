/** Whole stored rows, the kind-specific part nested in the common part, and the removal of
    everything secret from them (waddrmgr/db.go). */
module RowStore {
  import opened Bytes
  import opened Optional
  import opened Rows
  import opened RowCodecs

  /** What an account row holds. Types the code does not know are kept as they are. */
  datatype AccountInfo =
    | Default(account: DefaultAccount)
    | WatchOnly(watchOnly: WatchOnlyAccount)
    | OtherAccount(acctType: Byte, rawData: seq<Byte>)

  function AccountType(info: AccountInfo): Byte {
    match info
    case Default(_) => 0
    case WatchOnly(_) => 1
    case OtherAccount(t, _) => t
  }

  function AccountData(info: AccountInfo): seq<Byte> {
    match info
    case Default(a) => EncDefault(a, [])
    case WatchOnly(w) => EncWatchOnly(w, if w.schema.Some? then 1 else 0, [])
    case OtherAccount(_, data) => data
  }

  predicate FitsInfo(info: AccountInfo) {
    && Fits32(|AccountData(info)|)
    && match info
       case Default(a) => FitsDefault(a)
       case WatchOnly(w) => FitsWatchOnly(w)
       case OtherAccount(t, _) => t >= 2
  }

  function StoredAccount(info: AccountInfo): seq<Byte> {
    EncAccount(AccountRow(AccountType(info), AccountData(info)), [])
  }

  function Mapped<T, U>(r: Read<T>, f: T -> U): Read<U> {
    match r
    case Ok(v) => Ok(f(v))
    case Malformed => Malformed
    case OutOfRange => OutOfRange
    case EndOfInput => EndOfInput
    case Unsupported => Unsupported
  }

  function FetchedAccount(raw: seq<Byte>): Read<AccountInfo> {
    match Outcome(raw, 5, DecAccount(raw), OutOfRange)
    case Ok(row) =>
      if row.acctType == 0 then
        Mapped(Outcome(row.rawData, 20, DecDefault(row.rawData), OutOfRange), a => Default(a))
      else if row.acctType == 1 then
        Mapped(Outcome(row.rawData, 21, DecWatchOnly(row.rawData), EndOfInput), w => WatchOnly(w))
      else Unsupported
    case Malformed => Malformed
    case _ => OutOfRange
  }

  /** Every account row that fits 32 bits is read back as it was stored. */
  lemma AccountRoundTrip(info: AccountInfo)
    requires FitsInfo(info)
    ensures DecAccount(StoredAccount(info)) == Some((AccountRow(AccountType(info), AccountData(info)), []))
    ensures FetchedAccount(StoredAccount(info)) == if info.OtherAccount? then Unsupported else Ok(info)
  {
    AccountExactly(StoredAccount(info), AccountRow(AccountType(info), AccountData(info)), []);
    match info {
      case Default(a) => DefaultExactly(AccountData(info), a, []);
      case WatchOnly(w) =>
        assert FlagFor(if w.schema.Some? then 1 else 0, w.schema);
        WatchOnlyExactly(AccountData(info), w, []);
      case OtherAccount(_, _) =>
    }
  }

  /** What an address row holds beside the common fields. */
  datatype AddressBody =
    | Chain(chain: ChainAddress)
    | Imported(key: PairAddress)
    | Script(script: PairAddress)
    | Witness(witnessScript: WitnessAddress)
    | Taproot(taprootScript: WitnessAddress)
    | OtherAddress(addrType: Byte, rawData: seq<Byte>)

  datatype AddressInfo = AddressInfo(account: nat, addTime: nat, syncStatus: Byte, body: AddressBody)

  function AddressType(body: AddressBody): Byte {
    match body
    case Chain(_) => 0
    case Imported(_) => 1
    case Script(_) => 2
    case Witness(_) => 3
    case Taproot(_) => 4
    case OtherAddress(t, _) => t
  }

  function AddressData(body: AddressBody): seq<Byte> {
    match body
    case Chain(c) => EncChain(c)
    case Imported(p) => EncPair(p, [])
    case Script(p) => EncPair(p, [])
    case Witness(w) => EncWitness(w, if w.isSecret then 1 else 0, [])
    case Taproot(w) => EncWitness(w, if w.isSecret then 1 else 0, [])
    case OtherAddress(_, data) => data
  }

  function RowOf(info: AddressInfo): AddressRow {
    AddressRow(AddressType(info.body), info.account, info.addTime, info.syncStatus, AddressData(info.body))
  }

  predicate FitsBody(body: AddressBody) {
    match body
    case Chain(c) => Fits32(c.branch) && Fits32(c.index)
    case Imported(p) => FitsPair(p)
    case Script(p) => FitsPair(p)
    case Witness(w) => FitsWitness(w)
    case Taproot(w) => FitsWitness(w)
    case OtherAddress(t, _) => t >= 5
  }

  predicate FitsAddressInfo(info: AddressInfo) {
    FitsAddress(RowOf(info)) && FitsBody(info.body)
  }

  function StoredAddress(info: AddressInfo): seq<Byte> {
    EncAddress(RowOf(info), [])
  }

  function FetchedBody(addrType: Byte, data: seq<Byte>): Read<AddressBody> {
    if addrType == 0 then match DecChain(data) case Some(c) => Ok(Chain(c)) case None => Malformed
    else if addrType == 1 then Mapped(Outcome(data, 8, DecPair(data), OutOfRange), p => Imported(p))
    else if addrType == 2 then Mapped(Outcome(data, 8, DecPair(data), OutOfRange), p => Script(p))
    else if addrType == 3 then Mapped(Outcome(data, 10, DecWitness(data), OutOfRange), w => Witness(w))
    else if addrType == 4 then Mapped(Outcome(data, 10, DecWitness(data), OutOfRange), w => Taproot(w))
    else Unsupported
  }

  function FetchedAddress(raw: seq<Byte>): Read<AddressInfo> {
    match Outcome(raw, 18, DecAddress(raw), OutOfRange)
    case Ok(row) =>
      Mapped(FetchedBody(row.addrType, row.rawData), body => AddressInfo(row.account, row.addTime, row.syncStatus, body))
    case Malformed => Malformed
    case _ => OutOfRange
  }

  /** Every address row that fits 32 bits is read back as it was stored. */
  lemma AddressRoundTrip(info: AddressInfo)
    requires FitsAddressInfo(info)
    ensures DecAddress(StoredAddress(info)) == Some((RowOf(info), []))
    ensures FetchedAddress(StoredAddress(info)) == if info.body.OtherAddress? then Unsupported else Ok(info)
  {
    AddressExactly(StoredAddress(info), RowOf(info), []);
    BodyRoundTrip(info.body);
  }

  lemma BodyRoundTrip(body: AddressBody)
    requires FitsBody(body)
    ensures FetchedBody(AddressType(body), AddressData(body)) == if body.OtherAddress? then Unsupported else Ok(body)
  {
    var data := AddressData(body);
    match body {
      case Chain(c) => ChainExactly(data, c);
      case Imported(p) => PairExactly(data, p, []);
      case Script(p) => PairExactly(data, p, []);
      case Witness(w) => WitnessExactly(data, w, []);
      case Taproot(w) => WitnessExactly(data, w, []);
      case OtherAddress(_, _) =>
    }
  }

  method FetchAccountInfo(raw: seq<Byte>) returns (r: Read<AccountInfo>)
    ensures r == FetchedAccount(raw)
  {
    var row := DeserializeAccountRow(raw);
    if !row.Ok? {
      return if row.Malformed? then Malformed else OutOfRange;
    }
    if row.value.acctType == 0 {
      var arow := DeserializeDefaultAccountRow(row.value.rawData);
      r := Mapped(arow, a => Default(a));
    } else if row.value.acctType == 1 {
      var arow := DeserializeWatchOnlyAccountRow(row.value.rawData);
      r := Mapped(arow, w => WatchOnly(w));
    } else {
      r := Unsupported;
    }
  }

  method FetchAddress(raw: seq<Byte>) returns (r: Read<AddressInfo>)
    ensures r == FetchedAddress(raw)
  {
    var row := DeserializeAddressRow(raw);
    if !row.Ok? {
      return if row.Malformed? then Malformed else OutOfRange;
    }
    var body: Read<AddressBody>;
    match row.value.addrType {
      case 0 =>
        var c := DeserializeChainedAddress(row.value.rawData);
        body := Mapped(c, v => Chain(v));
      case 1 =>
        var p := DeserializePairAddress(row.value.rawData);
        body := Mapped(p, v => Imported(v));
      case 2 =>
        var p := DeserializePairAddress(row.value.rawData);
        body := Mapped(p, v => Script(v));
      case 3 =>
        var w := DeserializeWitnessScriptAddress(row.value.rawData);
        body := Mapped(w, v => Witness(v));
      case 4 =>
        var w := DeserializeWitnessScriptAddress(row.value.rawData);
        body := Mapped(w, v => Taproot(v));
      case _ => body := Unsupported;
    }
    r := Mapped(body, v => AddressInfo(row.value.account, row.value.addTime, row.value.syncStatus, v));
  }
}

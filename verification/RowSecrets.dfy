/** Removing all private key material from a scope's rows (deletePrivateKeys in
    waddrmgr/db.go). */
module RowSecrets {
  import opened Bytes
  import opened Optional
  import opened Rows
  import opened RowCodecs
  import opened RowStore

  type Key = seq<Byte>

  function PublicAccount(info: AccountInfo): AccountInfo {
    if info.Default? then Default(info.account.(privKey := [])) else info
  }

  /** Taproot scripts are kept even when they are secret. */
  function PublicBody(body: AddressBody): AddressBody {
    match body
    case Imported(p) => Imported(p.(secret := []))
    case Script(p) => Script(p.(secret := []))
    case Witness(w) => if w.isSecret then Witness(w.(script := [])) else body
    case _ => body
  }

  /** What becomes of a stored account row; nothing if it cannot be read. */
  function ScrubbedAccount(raw: seq<Byte>): Option<seq<Byte>> {
    match Outcome(raw, 5, DecAccount(raw), OutOfRange)
    case Ok(row) =>
      if row.acctType != 0 then Some(raw)
      else
        (match Outcome(row.rawData, 20, DecDefault(row.rawData), OutOfRange)
         case Ok(a) => Some(EncAccount(row.(rawData := EncDefault(a.(privKey := []), [])), []))
         case _ => None)
    case _ => None
  }

  function ScrubbedAddress(raw: seq<Byte>): Option<seq<Byte>> {
    match Outcome(raw, 18, DecAddress(raw), OutOfRange)
    case Ok(row) =>
      if row.addrType == 1 || row.addrType == 2 then
        (match Outcome(row.rawData, 8, DecPair(row.rawData), OutOfRange)
         case Ok(p) => Some(EncAddress(row.(rawData := EncPair(p.(secret := []), [])), []))
         case _ => None)
      else if row.addrType == 3 then
        (match Outcome(row.rawData, 10, DecWitness(row.rawData), OutOfRange)
         case Ok(w) =>
           if w.isSecret then Some(EncAddress(row.(rawData := EncWitness(w.(script := []), 1, [])), [])) else Some(raw)
         case _ => None)
      else Some(raw)
    case _ => None
  }

  /** Of a stored account, exactly the default account's private key is lost. */
  lemma OnlyAccountSecretIsLost(info: AccountInfo)
    requires FitsInfo(info)
    ensures ScrubbedAccount(StoredAccount(info)) == Some(StoredAccount(PublicAccount(info)))
    ensures FitsInfo(PublicAccount(info))
  {
    AccountRoundTrip(info);
    if info.Default? {
      DefaultExactly(AccountData(info), info.account, []);
    }
  }

  /** Of a stored address, exactly the secret part of an imported key, of a script, or of a
      secret witness script is lost. */
  lemma OnlyAddressSecretIsLost(info: AddressInfo)
    requires FitsAddressInfo(info)
    ensures ScrubbedAddress(StoredAddress(info)) == Some(StoredAddress(info.(body := PublicBody(info.body))))
    ensures FitsAddressInfo(info.(body := PublicBody(info.body)))
  {
    AddressExactly(StoredAddress(info), RowOf(info), []);
    match info.body {
      case Imported(p) => PairExactly(AddressData(info.body), p, []);
      case Script(p) => PairExactly(AddressData(info.body), p, []);
      case Witness(w) => WitnessExactly(AddressData(info.body), w, []);
      case _ =>
    }
  }

  method ScrubAccount(raw: seq<Byte>) returns (r: Option<seq<Byte>>)
    ensures r == ScrubbedAccount(raw)
  {
    var row := DeserializeAccountRow(raw);
    if !row.Ok? {
      return None;
    }
    if row.value.acctType != 0 {
      return Some(raw);
    }
    var arow := DeserializeDefaultAccountRow(row.value.rawData);
    if !arow.Ok? {
      return None;
    }
    AccountExactly(raw, row.value, DecAccount(raw).value.1);
    DefaultExactly(row.value.rawData, arow.value, DecDefault(row.value.rawData).value.1);
    var rawData := SerializeDefaultAccountRow(arow.value.(privKey := []));
    var buf := SerializeAccountRow(row.value.(rawData := rawData[..]));
    r := Some(buf[..]);
  }

  method ScrubAddress(raw: seq<Byte>) returns (r: Option<seq<Byte>>)
    ensures r == ScrubbedAddress(raw)
  {
    var row := DeserializeAddressRow(raw);
    if !row.Ok? {
      return None;
    }
    var data := row.value.rawData;
    AddressExactly(raw, row.value, DecAddress(raw).value.1);
    var rawData;
    if row.value.addrType == 1 || row.value.addrType == 2 {
      var irow := DeserializePairAddress(data);
      if !irow.Ok? {
        return None;
      }
      PairExactly(data, irow.value, DecPair(data).value.1);
      rawData := SerializePairAddress(irow.value.(secret := []));
    } else if row.value.addrType == 3 {
      var srow := DeserializeWitnessScriptAddress(data);
      if !srow.Ok? {
        return None;
      }
      if !srow.value.isSecret {
        return Some(raw);
      }
      WitnessExactly(data, srow.value, DecWitness(data).value.1);
      rawData := SerializeWitnessScriptAddress(srow.value.(script := []));
    } else {
      return Some(raw);
    }
    var buf := SerializeAddressRow(row.value.(rawData := rawData[..]));
    r := Some(buf[..]);
  }

  type Bucket = map<Key, seq<Byte>>

  predicate AccountsScrubbed(before: Bucket, after: Bucket) {
    && after.Keys == before.Keys
    && forall k :: k in before ==> ScrubbedAccount(before[k]) == Some(after[k])
  }

  predicate AddressesScrubbed(before: Bucket, after: Bucket) {
    && after.Keys == before.Keys
    && forall k :: k in before ==> ScrubbedAddress(before[k]) == Some(after[k])
  }

  predicate Readable(accounts: Bucket, addresses: Bucket) {
    && (forall k :: k in accounts ==> ScrubbedAccount(accounts[k]).Some?)
    && (forall k :: k in addresses ==> ScrubbedAddress(addresses[k]).Some?)
  }

  method ScrubAccounts(rows: Bucket) returns (r: Option<Bucket>)
    ensures match r
            case Some(after) => AccountsScrubbed(rows, after)
            case None => exists k :: k in rows && ScrubbedAccount(rows[k]).None?
  {
    var after, rest := rows, rows.Keys;
    while rest != {}
      invariant rest <= rows.Keys == after.Keys
      invariant forall k :: k in rows ==>
        if k in rest then after[k] == rows[k] else ScrubbedAccount(rows[k]) == Some(after[k])
      decreases rest
    {
      var k :| k in rest;
      var row := ScrubAccount(rows[k]);
      if row.None? {
        return None;
      }
      after := after[k := row.value];
      rest := rest - {k};
    }
    r := Some(after);
  }

  method ScrubAddresses(rows: Bucket) returns (r: Option<Bucket>)
    ensures match r
            case Some(after) => AddressesScrubbed(rows, after)
            case None => exists k :: k in rows && ScrubbedAddress(rows[k]).None?
  {
    var after, rest := rows, rows.Keys;
    while rest != {}
      invariant rest <= rows.Keys == after.Keys
      invariant forall k :: k in rows ==>
        if k in rest then after[k] == rows[k] else ScrubbedAddress(rows[k]) == Some(after[k])
      decreases rest
    {
      var k :| k in rest;
      var row := ScrubAddress(rows[k]);
      if row.None? {
        return None;
      }
      after := after[k := row.value];
      rest := rest - {k};
    }
    r := Some(after);
  }

  /** The names of single-valued keys, as bytes. */
  function Name(s: string): Key {
    seq(|s|, i requires 0 <= i < |s| => ByteOf(s[i]))
  }

  function ByteOf(c: char): Byte {
    c as int % 256
  }

  /** What the main bucket holds of private keys: the master key parameters, the two crypto
      keys and the master key itself. */
  const MAIN_SECRETS: set<Key> := {Name("mpriv"), Name("cpriv"), Name("cscript"), Name("mhdpriv")}

  const COIN_TYPE_SECRET: Key := Name("ctpriv")

  /** The bucket of one key scope: its single-valued keys, its accounts and addresses. */
  datatype ScopeRows = ScopeRows(keys: Bucket, accounts: Bucket, addresses: Bucket)

  predicate ScopeScrubbed(before: ScopeRows, after: ScopeRows) {
    && after.keys == before.keys - {COIN_TYPE_SECRET}
    && AccountsScrubbed(before.accounts, after.accounts) && AddressesScrubbed(before.addresses, after.addresses)
  }

  method ScrubScope(rows: ScopeRows) returns (r: Option<ScopeRows>)
    ensures match r
            case Some(after) => ScopeScrubbed(rows, after)
            case None => !Readable(rows.accounts, rows.addresses)
  {
    var keys := rows.keys - {COIN_TYPE_SECRET};
    var accounts := ScrubAccounts(rows.accounts);
    if accounts.None? {
      return None;
    }
    var addresses := ScrubAddresses(rows.addresses);
    if addresses.None? {
      return None;
    }
    r := Some(ScopeRows(keys, accounts.value, addresses.value));
  }

  /** Only entries with a key of 8 bytes are scopes. */
  predicate IsScope(key: Key) { |key| == 8 }

  predicate AllScrubbed(before: map<Key, ScopeRows>, after: map<Key, ScopeRows>, left: set<Key>) {
    && after.Keys == before.Keys
    && forall k :: k in before ==>
         if IsScope(k) && k !in left then ScopeScrubbed(before[k], after[k]) else after[k] == before[k]
  }

  /** The key of a scope's bucket: its purpose and its coin, 4 bytes each. */
  function ScopeKey(purpose: nat, coin: nat): Key {
    Little(purpose, 4) + Little(coin, 4)
  }

  /** The row holds something secret: an imported key, a script, or a script that is marked
      as secret. */
  predicate HoldsSecret(body: AddressBody) {
    match body
    case Imported(p) => p.secret != []
    case Script(p) => p.secret != []
    case Witness(w) => w.isSecret && w.script != []
    case Taproot(w) => w.isSecret && w.script != []
    case _ => false
  }

  /** A stored account holds no private key, if it can be read. */
  predicate PublicOnly(raw: seq<Byte>) {
    var info := FetchedAccount(raw);
    info.Ok? && info.value.Default? ==> info.value.account.privKey == []
  }

  /** A stored address holds no secret, if it can be read, or is a taproot script. */
  predicate TaprootSecretOnly(raw: seq<Byte>) {
    var info := FetchedAddress(raw);
    info.Ok? && HoldsSecret(info.value.body) ==> info.value.body.Taproot?
  }

  /** No account of the scope holds a private key and no address a secret, taproot scripts
      apart; and the scope's own private key, under `ctpriv`, is gone. */
  predicate ScopeIsPublic(rows: ScopeRows) {
    && [99, 116, 112, 114, 105, 118] !in rows.keys
    && (forall k :: k in rows.accounts ==> PublicOnly(rows.accounts[k]))
    && (forall k :: k in rows.addresses ==> TaprootSecretOnly(rows.addresses[k]))
  }

  /** The names of what is deleted, as the database holds them. */
  lemma SecretNames()
    ensures MAIN_SECRETS ==
              {[109, 112, 114, 105, 118], [99, 112, 114, 105, 118], [99, 115, 99, 114, 105, 112, 116],
               [109, 104, 100, 112, 114, 105, 118]}
    ensures COIN_TYPE_SECRET == [99, 116, 112, 114, 105, 118]
  {
    assert Name("mpriv") == [109, 112, 114, 105, 118];
    assert Name("cpriv") == [99, 112, 114, 105, 118];
    assert Name("cscript") == [99, 115, 99, 114, 105, 112, 116];
    assert Name("mhdpriv") == [109, 104, 100, 112, 114, 105, 118];
  }

  /** Whatever the row was, no private key is left in it. */
  lemma ScrubbedAccountIsPublic(raw: seq<Byte>)
    requires ScrubbedAccount(raw).Some?
    ensures PublicOnly(ScrubbedAccount(raw).value)
  {
    var row := DecAccount(raw).value.0;
    if row.acctType == 0 {
      var a := DecDefault(row.rawData).value.0;
      AccountExactly(raw, row, DecAccount(raw).value.1);
      DefaultExactly(row.rawData, a, DecDefault(row.rawData).value.1);
      var data := EncDefault(a.(privKey := []), []);
      DefaultExactly(data, a.(privKey := []), []);
      AccountExactly(ScrubbedAccount(raw).value, row.(rawData := data), []);
    }
  }

  /** An address row with shorter data is read back. */
  lemma RewrittenAddress(raw: seq<Byte>, row: AddressRow, tail: seq<Byte>, data: seq<Byte>)
    requires DecAddress(raw) == Some((row, tail)) && |data| <= |row.rawData|
    ensures DecAddress(EncAddress(row.(rawData := data), [])) == Some((row.(rawData := data), []))
    ensures |EncAddress(row.(rawData := data), [])| >= 18
  {
    AddressExactly(raw, row, tail);
    AddressExactly(EncAddress(row.(rawData := data), []), row.(rawData := data), []);
  }

  lemma PairWithoutSecret(data: seq<Byte>, p: PairAddress, tail: seq<Byte>)
    requires DecPair(data) == Some((p, tail))
    ensures |EncPair(p.(secret := []), [])| <= |data|
    ensures DecPair(EncPair(p.(secret := []), [])) == Some((p.(secret := []), []))
  {
    PairExactly(data, p, tail);
    PairExactly(EncPair(p.(secret := []), []), p.(secret := []), []);
  }

  lemma ScrubbedPairIsPublic(raw: seq<Byte>, row: AddressRow, tail: seq<Byte>)
    requires DecAddress(raw) == Some((row, tail)) && (row.addrType == 1 || row.addrType == 2)
    requires ScrubbedAddress(raw).Some?
    ensures TaprootSecretOnly(ScrubbedAddress(raw).value)
  {
    var p := DecPair(row.rawData).value.0;
    var data := EncPair(p.(secret := []), []);
    PairWithoutSecret(row.rawData, p, DecPair(row.rawData).value.1);
    RewrittenAddress(raw, row, tail, data);
    BodyOnly(row.(rawData := data));
  }

  /** What is fetched is decided by the type and the data of the row. */
  lemma BodyOnly(row: AddressRow)
    requires DecAddress(EncAddress(row, [])) == Some((row, [])) && |EncAddress(row, [])| >= 18
    ensures
      var info, body := FetchedAddress(EncAddress(row, [])), FetchedBody(row.addrType, row.rawData);
      (info.Ok? <==> body.Ok?) && (info.Ok? ==> info.value.body == body.value)
  {
  }

  lemma WitnessWithoutScript(data: seq<Byte>, w: WitnessAddress, tail: seq<Byte>)
    requires DecWitness(data) == Some((w, tail)) && w.isSecret
    ensures |EncWitness(w.(script := []), 1, [])| <= |data|
    ensures DecWitness(EncWitness(w.(script := []), 1, [])) == Some((w.(script := []), []))
  {
    WitnessExactly(data, w, tail);
    WitnessExactly(EncWitness(w.(script := []), 1, []), w.(script := []), []);
  }

  lemma ScrubbedWitnessIsPublic(raw: seq<Byte>, row: AddressRow, tail: seq<Byte>)
    requires DecAddress(raw) == Some((row, tail)) && row.addrType == 3
    requires ScrubbedAddress(raw).Some?
    ensures TaprootSecretOnly(ScrubbedAddress(raw).value)
  {
    var w := DecWitness(row.rawData).value.0;
    if w.isSecret {
      var data := EncWitness(w.(script := []), 1, []);
      WitnessWithoutScript(row.rawData, w, DecWitness(row.rawData).value.1);
      RewrittenAddress(raw, row, tail, data);
      BodyOnly(row.(rawData := data));
    }
  }

  lemma ScrubbedAddressIsPublic(raw: seq<Byte>)
    requires ScrubbedAddress(raw).Some?
    ensures TaprootSecretOnly(ScrubbedAddress(raw).value)
  {
    var row, tail := DecAddress(raw).value.0, DecAddress(raw).value.1;
    if row.addrType == 1 || row.addrType == 2 {
      ScrubbedPairIsPublic(raw, row, tail);
    } else if row.addrType == 3 {
      ScrubbedWitnessIsPublic(raw, row, tail);
    }
  }

  lemma ScrubbedScopeIsPublic(before: ScopeRows, after: ScopeRows)
    requires ScopeScrubbed(before, after)
    ensures ScopeIsPublic(after)
  {
    SecretNames();
    forall k | k in after.accounts
      ensures PublicOnly(after.accounts[k])
    {
      ScrubbedAccountIsPublic(before.accounts[k]);
    }
    forall k | k in after.addresses
      ensures TaprootSecretOnly(after.addresses[k])
    {
      ScrubbedAddressIsPublic(before.addresses[k]);
    }
  }

  /** No scope holds anything private, whatever its purpose and coin; entries that are no
      scopes are as they were. */
  ghost predicate ScopesArePublic(before: map<Key, ScopeRows>, after: map<Key, ScopeRows>) {
    && (forall purpose: nat, coin: nat :: ScopeKey(purpose, coin) in after ==> ScopeIsPublic(after[ScopeKey(purpose, coin)]))
    && (forall k :: k in before && |k| != 8 ==> k in after && after[k] == before[k])
  }

  lemma ScrubbedArePublic(before: map<Key, ScopeRows>, after: map<Key, ScopeRows>)
    requires AllScrubbed(before, after, {})
    ensures ScopesArePublic(before, after)
  {
    forall purpose: nat, coin: nat | ScopeKey(purpose, coin) in after
      ensures ScopeIsPublic(after[ScopeKey(purpose, coin)])
    {
      var k := ScopeKey(purpose, coin);
      ScrubbedScopeIsPublic(before[k], after[k]);
    }
  }

  /** The address manager's part of the database. */
  class Namespace {
    var main: Bucket
    var scopes: map<Key, ScopeRows>

    constructor (main: Bucket, scopes: map<Key, ScopeRows>)
      ensures this.main == main && this.scopes == scopes
    {
      this.main, this.scopes := main, scopes;
    }

    /** Deletes every private key and rewrites every row of every scope. If a row cannot be
        read, the transaction is rolled back and nothing changes. */
    method DeletePrivateKeys() returns (ok: bool)
      modifies this
      ensures ok <==> forall k :: k in old(scopes) && |k| == 8 ==> Readable(old(scopes)[k].accounts, old(scopes)[k].addresses)
      ensures ok ==> main == old(main) - MAIN_SECRETS && AllScrubbed(old(scopes), scopes, {})
      ensures ok ==> ScopesArePublic(old(scopes), scopes)
      ensures !ok ==> main == old(main) && scopes == old(scopes)
    {
      var after, rest := scopes, scopes.Keys;
      while rest != {}
        invariant rest <= scopes.Keys && AllScrubbed(scopes, after, rest)
        invariant forall k :: k in scopes && k !in rest && IsScope(k) ==> Readable(scopes[k].accounts, scopes[k].addresses)
        invariant main == old(main) && scopes == old(scopes)
        decreases rest
      {
        var k :| k in rest;
        if IsScope(k) {
          var scope := ScrubScope(scopes[k]);
          if scope.None? {
            return false;
          }
          ScrubbedIsReadable(scopes[k], scope.value);
          after := after[k := scope.value];
        }
        rest := rest - {k};
      }
      ScrubbedArePublic(scopes, after);
      main, scopes := main - MAIN_SECRETS, after;
      ok := true;
    }
  }

  lemma ScrubbedIsReadable(before: ScopeRows, after: ScopeRows)
    requires ScopeScrubbed(before, after)
    ensures Readable(before.accounts, before.addresses)
  {
  }

  /** After private keys were deleted, an address row still holds a secret if and only if it
      is a taproot script that held one. */
  lemma OnlyTaprootKeepsSecret(info: AddressInfo)
    requires FitsAddressInfo(info) && !info.body.OtherAddress?
    ensures
      var after := ScrubbedAddress(StoredAddress(info));
      && after.Some? && FetchedAddress(after.value).Ok?
      && (HoldsSecret(FetchedAddress(after.value).value.body) <==> info.body.Taproot? && HoldsSecret(info.body))
  {
    OnlyAddressSecretIsLost(info);
    AddressRoundTrip(info.(body := PublicBody(info.body)));
  }
}

/** Where every field of a stored row stands, byte by byte: which bytes a row of each kind is
    made of, and that no other bytes are that row (waddrmgr/db.go). */
module RowLayouts {
  import opened Bytes
  import opened Optional
  import opened Rows
  import opened RowStore

  /** What stands in a row, one field right behind the other. */
  datatype Layout =
    | End
    | One(b: Byte, next: Layout)
    | Word(word: nat, next: Layout)
    | Long(long: nat, next: Layout)
    | Sized(bytes: seq<Byte>, next: Layout)
    | Rest(rest: seq<Byte>)

  /** The number that four bytes mean, the low one first. */
  function FourBytes(raw: seq<Byte>, k: nat): (r: nat)
    requires k + 4 <= |raw|
    ensures r < 0x1_0000_0000
  {
    var b0: nat, b1: nat, b2: nat, b3: nat := raw[k], raw[k + 1], raw[k + 2], raw[k + 3];
    b0 + 0x100 * b1 + 0x1_0000 * b2 + 0x100_0000 * b3
  }

  predicate Has32(raw: seq<Byte>, k: nat, v: nat) {
    k + 4 <= |raw| && FourBytes(raw, k) == v
  }

  /** All that stands at k and after it. */
  predicate From(raw: seq<Byte>, k: nat, rest: seq<Byte>) {
    |raw| == k + |rest| && forall i :: 0 <= i < |rest| ==> raw[k + i] == rest[i]
  }

  predicate HasBytes(raw: seq<Byte>, k: nat, bytes: seq<Byte>) {
    k + |bytes| <= |raw| && forall i :: 0 <= i < |bytes| ==> raw[k + i] == bytes[i]
  }

  /** The bytes from k on are laid out so: single bytes, numbers of four and of eight bytes,
      the low byte and the low half first, byte strings behind their length, and nothing
      after the end. */
  predicate Laid(raw: seq<Byte>, k: nat, layout: Layout)
    decreases layout
  {
    match layout
    case End => |raw| == k
    case One(b, next) => k < |raw| && raw[k] == b && Laid(raw, k + 1, next)
    case Word(v, next) => Has32(raw, k, v) && Laid(raw, k + 4, next)
    case Long(v, next) =>
      Has32(raw, k, v % 0x1_0000_0000) && Has32(raw, k + 4, v / 0x1_0000_0000) && Laid(raw, k + 8, next)
    case Sized(bytes, next) =>
      Has32(raw, k, |bytes|) && HasBytes(raw, k + 4, bytes) && Laid(raw, k + 4 + |bytes|, next)
    case Rest(rest) => From(raw, k, rest)
  }

  /** The same in the terms the row formats are put together from. */
  function Written(layout: Layout): seq<Byte> {
    match layout
    case End => []
    case One(b, next) => [b] + Written(next)
    case Word(v, next) => Num(v, 4, Written(next))
    case Long(v, next) => Num(v, 8, Written(next))
    case Sized(bytes, next) => Blob(bytes, Written(next))
    case Rest(rest) => rest
  }

  predicate Fits(layout: Layout) {
    match layout
    case End => true
    case One(_, next) => Fits(next)
    case Word(v, next) => Fits32(v) && Fits(next)
    case Long(v, next) => v < TWO_TO_THE_64 && Fits(next)
    case Sized(bytes, next) => Fits32(|bytes|) && Fits(next)
    case Rest(_) => true
  }

  lemma FromIsSuffix(raw: seq<Byte>, k: nat, rest: seq<Byte>)
    ensures From(raw, k, rest) <==> k <= |raw| && raw[k..] == rest
  {
    if k <= |raw| && From(raw, k, rest) {
      assert forall i :: 0 <= i < |rest| ==> raw[k..][i] == raw[k + i] == rest[i];
    }
  }

  lemma ByteFrom(raw: seq<Byte>, k: nat, b: Byte, tail: seq<Byte>)
    ensures From(raw, k, [b] + tail) <==> k < |raw| && raw[k] == b && From(raw, k + 1, tail)
  {
    FromIsSuffix(raw, k, [b] + tail);
    FromIsSuffix(raw, k + 1, tail);
    if k < |raw| {
      assert raw[k..] == [raw[k]] + raw[k + 1..];
    }
    assert ([b] + tail)[0] == b && ([b] + tail)[1..] == tail;
  }

  /** The first four bytes of a number, and the rest. */
  lemma {:induction false} ValueFrom(raw: seq<Byte>)
    requires |raw| >= 4
    ensures Value(raw) == FourBytes(raw, 0) + 0x1_0000_0000 * Value(raw[4..])
  {
    assert raw[1..][1..] == raw[2..] && raw[2..][1..] == raw[3..] && raw[3..][1..] == raw[4..];
    assert Value(raw[3..]) == raw[3] as int + 256 * Value(raw[4..]);
    assert Value(raw[2..]) == raw[2] as int + 256 * Value(raw[3..]);
    assert Value(raw[1..]) == raw[1] as int + 256 * Value(raw[2..]);
  }

  lemma WordFrom(raw: seq<Byte>, k: nat, v: nat, tail: seq<Byte>)
    ensures From(raw, k, Num(v, 4, tail)) && Fits32(v) <==> Has32(raw, k, v) && From(raw, k + 4, tail)
  {
    FromIsSuffix(raw, k, Num(v, 4, tail));
    FromIsSuffix(raw, k + 4, tail);
    Powers();
    if k + 4 <= |raw| {
      NumExactly(raw[k..], 4, v, tail);
      ValueFrom(raw[k..][..4]);
      assert raw[k..][4..] == raw[k + 4..];
    }
  }

  lemma Halves(v: nat, low: nat, high: nat)
    requires low < 0x1_0000_0000
    ensures v == low + 0x1_0000_0000 * high <==> v % 0x1_0000_0000 == low && v / 0x1_0000_0000 == high
  {
  }

  lemma {:induction false} HalvesOf(raw: seq<Byte>, v: nat)
    requires |raw| == 8
    ensures Value(raw) == v <==> Has32(raw, 0, v % 0x1_0000_0000) && Has32(raw, 4, v / 0x1_0000_0000)
  {
    ValueFrom(raw);
    ValueFrom(raw[4..]);
    assert raw[4..][4..] == [] && FourBytes(raw[4..], 0) == FourBytes(raw, 4);
    Halves(v, FourBytes(raw, 0), FourBytes(raw, 4));
  }

  lemma LongFrom(raw: seq<Byte>, k: nat, v: nat, tail: seq<Byte>)
    ensures From(raw, k, Num(v, 8, tail)) && v < TWO_TO_THE_64 <==>
              Has32(raw, k, v % 0x1_0000_0000) && Has32(raw, k + 4, v / 0x1_0000_0000) && From(raw, k + 8, tail)
  {
    FromIsSuffix(raw, k, Num(v, 8, tail));
    FromIsSuffix(raw, k + 8, tail);
    Powers();
    if k + 8 <= |raw| {
      NumExactly(raw[k..], 8, v, tail);
      HalvesOf(raw[k..][..8], v);
      assert raw[k..][8..] == raw[k + 8..];
      ValueRoundTrip(raw[k..][..8]);
    }
  }

  lemma SizedFrom(raw: seq<Byte>, k: nat, bytes: seq<Byte>, tail: seq<Byte>)
    ensures From(raw, k, Blob(bytes, tail)) && Fits32(|bytes|) <==>
              Has32(raw, k, |bytes|) && HasBytes(raw, k + 4, bytes) && From(raw, k + 4 + |bytes|, tail)
  {
    WordFrom(raw, k, |bytes|, bytes + tail);
    FromIsSuffix(raw, k + 4, bytes + tail);
    FromIsSuffix(raw, k + 4 + |bytes|, tail);
    if k + 4 + |bytes| <= |raw| {
      var there := raw[k + 4..k + 4 + |bytes|];
      assert raw[k + 4..] == there + raw[k + 4 + |bytes|..];
      assert HasBytes(raw, k + 4, bytes) <==> there == bytes by {
        assert forall i :: 0 <= i < |bytes| ==> there[i] == raw[k + 4 + i];
      }
    }
  }

  /** Bytes are laid out so exactly if they are written so and the numbers fit. */
  lemma {:induction false} LaidIsWritten(raw: seq<Byte>, k: nat, layout: Layout)
    ensures Laid(raw, k, layout) <==> From(raw, k, Written(layout)) && Fits(layout)
    decreases layout
  {
    match layout {
      case End =>
      case One(b, next) =>
        ByteFrom(raw, k, b, Written(next));
        LaidIsWritten(raw, k + 1, next);
      case Word(v, next) =>
        WordFrom(raw, k, v, Written(next));
        LaidIsWritten(raw, k + 4, next);
      case Long(v, next) =>
        LongFrom(raw, k, v, Written(next));
        LaidIsWritten(raw, k + 8, next);
      case Sized(bytes, next) =>
        SizedFrom(raw, k, bytes, Written(next));
        LaidIsWritten(raw, k + 4 + |bytes|, next);
      case Rest(_) =>
    }
  }

  lemma {:induction false} RowIsWritten(raw: seq<Byte>, layout: Layout)
    ensures Laid(raw, 0, layout) <==> raw == Written(layout) && Fits(layout)
  {
    LaidIsWritten(raw, 0, layout);
    FromIsSuffix(raw, 0, Written(layout));
    assert raw[0..] == raw;
  }

  /** Two bytes of a schema behind a flag of 1, or a flag of 0. */
  function SchemaLayout(schema: Option<Schema>): Layout {
    match schema
    case None => One(0, End)
    case Some(s) => One(1, One(s.internal, One(s.external, End)))
  }

  function AccountLayout(info: AccountInfo): Layout {
    match info
    case Default(a) =>
      Sized(a.pubKey, Sized(a.privKey, Word(a.nextExternal, Word(a.nextInternal, Sized(a.name, End)))))
    case WatchOnly(w) =>
      var head := SchemaLayout(w.schema);
      Sized(w.pubKey, Word(w.fingerprint, Word(w.nextExternal, Word(w.nextInternal, Sized(w.name, head)))))
    case OtherAccount(_, data) => Rest(data)
  }

  function PairLayout(public: seq<Byte>, secret: seq<Byte>): Layout {
    Sized(public, Sized(secret, End))
  }

  function WitnessLayout(w: WitnessAddress): Layout {
    One(w.version, One(if w.isSecret then 1 else 0, PairLayout(w.hash, w.script)))
  }

  function BodyLayout(body: AddressBody): Layout {
    match body
    case Chain(c) => Word(c.branch, Word(c.index, End))
    case Imported(p) => PairLayout(p.public, p.secret)
    case Script(p) => PairLayout(p.public, p.secret)
    case Witness(w) => WitnessLayout(w)
    case Taproot(w) => WitnessLayout(w)
    case OtherAddress(_, data) => Rest(data)
  }

  lemma SchemaWritten(schema: Option<Schema>)
    ensures EncSchema(if schema.Some? then 1 else 0, schema, []) == Written(SchemaLayout(schema))
    ensures Fits(SchemaLayout(schema))
  {
    match schema {
      case None =>
      case Some(s) =>
        assert Written(One(s.external, End)) == [s.external];
        assert Fits(One(s.external, End));
    }
  }

  lemma DefaultWritten(a: DefaultAccount)
    ensures EncDefault(a, []) == Written(AccountLayout(Default(a))) && FitsDefault(a) == Fits(AccountLayout(Default(a)))
  {
    var l4 := Sized(a.name, End);
    var l3 := Word(a.nextInternal, l4);
    var l2 := Word(a.nextExternal, l3);
    assert Written(l4) == Blob(a.name, []) && Written(l3) == Num(a.nextInternal, 4, Written(l4));
    assert Written(l2) == Num(a.nextExternal, 4, Written(l3));
    assert Fits(l4) == Fits32(|a.name|) && Fits(l3) == (Fits32(a.nextInternal) && Fits(l4));
    assert Fits(l2) == (Fits32(a.nextExternal) && Fits(l3));
  }

  lemma WatchOnlyWritten(w: WatchOnlyAccount)
    ensures EncWatchOnly(w, if w.schema.Some? then 1 else 0, []) == Written(AccountLayout(WatchOnly(w)))
    ensures FitsWatchOnly(w) == Fits(AccountLayout(WatchOnly(w)))
  {
    var l5 := SchemaLayout(w.schema);
    SchemaWritten(w.schema);
    var l4 := Sized(w.name, l5);
    var l3 := Word(w.nextInternal, l4);
    var l2 := Word(w.nextExternal, l3);
    assert Written(l4) == Blob(w.name, Written(l5)) && Written(l3) == Num(w.nextInternal, 4, Written(l4));
    assert Written(l2) == Num(w.nextExternal, 4, Written(l3));
    assert Fits(l4) == Fits32(|w.name|) && Fits(l3) == (Fits32(w.nextInternal) && Fits(l4));
    assert Fits(l2) == (Fits32(w.nextExternal) && Fits(l3));
  }

  lemma PairWritten(row: PairAddress)
    ensures EncPair(row, []) == Written(PairLayout(row.public, row.secret))
    ensures FitsPair(row) == Fits(PairLayout(row.public, row.secret))
  {
    var l := Sized(row.secret, End);
    assert Fits(l) == (Fits32(|row.secret|) && Fits(End));
    assert Written(l) == Blob(row.secret, []);
  }

  lemma WitnessWritten(w: WitnessAddress)
    ensures EncWitness(w, if w.isSecret then 1 else 0, []) == Written(WitnessLayout(w))
    ensures FitsWitness(w) == Fits(WitnessLayout(w))
  {
    var flag: Byte := if w.isSecret then 1 else 0;
    var l := PairLayout(w.hash, w.script);
    PairWritten(PairAddress(w.hash, w.script));
    assert Written(One(flag, l)) == [flag] + Written(l) && Fits(One(flag, l)) == Fits(l);
    assert [w.version, flag] + Written(l) == [w.version] + ([flag] + Written(l));
  }

  lemma BodyWritten(body: AddressBody)
    ensures AddressData(body) == Written(BodyLayout(body))
    ensures FitsBody(body) ==> Fits(BodyLayout(body))
    ensures Fits(BodyLayout(body)) && (body.OtherAddress? ==> body.addrType >= 5) ==> FitsBody(body)
  {
    match body {
      case Chain(c) =>
        var l := Word(c.index, End);
        assert Written(l) == Num(c.index, 4, []) && Fits(l) == Fits32(c.index);
      case Imported(p) => PairWritten(p);
      case Script(p) => PairWritten(p);
      case Witness(w) => WitnessWritten(w);
      case Taproot(w) => WitnessWritten(w);
      case OtherAddress(_, _) =>
    }
  }

  /** A stored account: its type, 0 for a default and 1 for a watch-only one, the number of
      bytes that follow, and its fields. Only such bytes are that account's row. */
  lemma {:induction false} StoredAccountLayout(raw: seq<Byte>, info: AccountInfo)
    ensures FitsInfo(info) && raw == StoredAccount(info) <==>
              && |raw| >= 5
              && var layout := Word(|raw| - 5, AccountLayout(info));
                 match info
                 case Default(_) => Laid(raw, 0, One(0, layout))
                 case WatchOnly(_) => Laid(raw, 0, One(1, layout))
                 case OtherAccount(t, _) => t >= 2 && Laid(raw, 0, One(t, layout))
  {
    var t, data := AccountType(info), AccountData(info);
    match info {
      case Default(a) => DefaultWritten(a);
      case WatchOnly(w) => WatchOnlyWritten(w);
      case OtherAccount(_, _) =>
    }
    assert data == Written(AccountLayout(info));
    OuterAccount(raw, t, AccountLayout(info));
  }

  lemma {:induction false} AccountRowWritten(t: Byte, n: nat, layout: Layout)
    ensures |Written(One(t, Word(n, layout)))| == 5 + |Written(layout)|
    ensures Fits(One(t, Word(n, layout))) == (Fits32(n) && Fits(layout))
    ensures n == |Written(layout)| ==>
              EncAccount(AccountRow(t, Written(layout)), []) == Written(One(t, Word(n, layout)))
  {
    assert Written(Word(n, layout)) == Num(n, 4, Written(layout));
    assert Fits(Word(n, layout)) == (Fits32(n) && Fits(layout));
    assert Written(layout) + [] == Written(layout);
  }

  lemma {:induction false} OuterAccount(raw: seq<Byte>, t: Byte, layout: Layout)
    ensures |raw| >= 5 && Laid(raw, 0, One(t, Word(|raw| - 5, layout))) <==>
              raw == EncAccount(AccountRow(t, Written(layout)), []) && Fits(layout) && Fits32(|Written(layout)|)
  {
    AccountRowWritten(t, |Written(layout)|, layout);
    if |raw| >= 5 {
      var l := One(t, Word(|raw| - 5, layout));
      RowIsWritten(raw, l);
      AccountRowWritten(t, |raw| - 5, layout);
    }
  }

  /** A stored address: its kind, from 0 for a chained one to 4 for a taproot script, its
      account, time and sync status, the number of bytes that follow, and what is particular
      to its kind. Only such bytes are that address's row. */
  lemma {:induction false} StoredAddressLayout(raw: seq<Byte>, info: AddressInfo)
    ensures FitsAddressInfo(info) && raw == StoredAddress(info) <==>
              && |raw| >= 18
              && var layout := CommonLayout(info, |raw| - 18, BodyLayout(info.body));
                 match info.body
                 case Chain(_) => Laid(raw, 0, One(0, layout))
                 case Imported(_) => Laid(raw, 0, One(1, layout))
                 case Script(_) => Laid(raw, 0, One(2, layout))
                 case Witness(_) => Laid(raw, 0, One(3, layout))
                 case Taproot(_) => Laid(raw, 0, One(4, layout))
                 case OtherAddress(t, _) => t >= 5 && Laid(raw, 0, One(t, layout))
  {
    BodyWritten(info.body);
    OuterAddress(raw, AddressType(info.body), info, BodyLayout(info.body));
  }

  function CommonLayout(info: AddressInfo, n: nat, body: Layout): Layout {
    Word(info.account, Long(info.addTime, One(info.syncStatus, Word(n, body))))
  }

  lemma {:induction false} AddressRowWritten(t: Byte, info: AddressInfo, n: nat, body: Layout)
    ensures |Written(One(t, CommonLayout(info, n, body)))| == 18 + |Written(body)|
    ensures Fits(One(t, CommonLayout(info, n, body))) <==>
              Fits32(info.account) && info.addTime < TWO_TO_THE_64 && Fits32(n) && Fits(body)
    ensures n == |Written(body)| ==>
              EncAddress(AddressRow(t, info.account, info.addTime, info.syncStatus, Written(body)), []) ==
              Written(One(t, CommonLayout(info, n, body)))
  {
    var l3 := Word(n, body);
    var l2 := One(info.syncStatus, l3);
    var l1 := Long(info.addTime, l2);
    var l0 := Word(info.account, l1);
    assert Written(l3) == Num(n, 4, Written(body)) && Written(l2) == [info.syncStatus] + Written(l3);
    assert Written(l1) == Num(info.addTime, 8, Written(l2)) && Written(l0) == Num(info.account, 4, Written(l1));
    assert Fits(l3) == (Fits32(n) && Fits(body)) && Fits(l2) == Fits(l3);
    assert Fits(l1) == (info.addTime < TWO_TO_THE_64 && Fits(l2)) && Fits(l0) == (Fits32(info.account) && Fits(l1));
    assert Written(body) + [] == Written(body);
  }

  lemma {:induction false} OuterAddress(raw: seq<Byte>, t: Byte, info: AddressInfo, body: Layout)
    ensures |raw| >= 18 && Laid(raw, 0, One(t, CommonLayout(info, |raw| - 18, body))) <==>
              && raw == EncAddress(AddressRow(t, info.account, info.addTime, info.syncStatus, Written(body)), [])
              && Fits32(info.account) && info.addTime < TWO_TO_THE_64 && Fits32(|Written(body)|) && Fits(body)
  {
    AddressRowWritten(t, info, |Written(body)|, body);
    if |raw| >= 18 {
      var l := One(t, CommonLayout(info, |raw| - 18, body));
      RowIsWritten(raw, l);
      AddressRowWritten(t, info, |raw| - 18, body);
    }
  }
}

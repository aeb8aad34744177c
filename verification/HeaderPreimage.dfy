/** The byte string a block header is hashed from, and a decoder for it. */
module HeaderPreimage {
  import opened Bytes
  import opened Wrappers

  const BLOOM_BYTE_LENGTH := 256

  type uint64 = x: nat | x < 0x1_0000_0000_0000_0000
  type uint32 = x: nat | x < 0x1_0000_0000
  type Nonce8 = s: seq<byte> | |s| == 8 witness seq(8, _ => 0)
  type GoBytes = s: seq<byte> | |s| < 0x1_0000_0000_0000_0000 witness []

  datatype Staker = Staker(address: Address, amount: Option<int>, registeredHeight: uint64,
                           unlockStakeHeight: Option<uint64>, isActive: bool)
  type Stakers = s: seq<Staker> | |s| < 0x1_0000_0000_0000_0000 witness []

  datatype Header = Header(
    parentHash: Hash32, uncleHash: Hash32, coinbase: Address, root: Hash32, txHash: Hash32, receiptHash: Hash32,
    bloom: seq<byte>, difficulty: Option<int>, number: Option<int>, gasLimit: uint64, gasUsed: uint64, time: uint64,
    extra: GoBytes, signature: GoBytes, mixDigest: Hash32, nonce: Nonce8, version: uint32,
    protocolVersion: uint32, upgradeName: GoBytes, upgradeTimestamp: uint64, mainKingAddress: Address,
    rewardAmount: Option<int>, currentReward: Option<int>, stakers: Stakers,
    txRoot: Hash32)  // a compatibility copy that is not hashed

  // ---------- big integers and the bloom filter ----------

  function Abs(x: int): nat {
    if x < 0 then -x else x
  }

  /** The magnitude of a possibly nil big integer. */
  function Magnitude(value: Option<int>): nat {
    match value case None => 0 case Some(x) => Abs(x)
  }

  function SafeBigIntToBytes(value: Option<int>, size: nat): (r: seq<byte>)
    ensures r == FixedBytes(Magnitude(value), size)
  {
    match value
    case None =>
      FixedZero(size);
      seq(size, _ => 0 as byte)
    case Some(x) =>
      var bytes := MinimalBytes(Abs(x));
      MinimalPadsToFixed(Abs(x), size);
      if |bytes| > size then bytes[|bytes| - size..]
      else if |bytes| < size then seq(size - |bytes|, _ => 0 as byte) + bytes
      else bytes
  }

  function BloomBytes(bloom: seq<byte>): (r: seq<byte>)
    ensures |r| == BLOOM_BYTE_LENGTH
  {
    var copyLen := if |bloom| > BLOOM_BYTE_LENGTH then BLOOM_BYTE_LENGTH else |bloom|;
    bloom[..copyLen] + seq(BLOOM_BYTE_LENGTH - copyLen, _ => 0 as byte)
  }

  function U64(x: uint64): seq<byte> {
    FixedBytes(x, 8)
  }

  function U32(x: uint32): seq<byte> {
    FixedBytes(x, 4)
  }

  lemma PowerValues()
    ensures Pow256(4) == TWO_32 && Pow256(8) == TWO_64
  {
    assert Pow256(8) == 256 * 256 * 256 * 256 * Pow256(4);
  }

  lemma U64RoundTrip(x: uint64)
    ensures ToNat(U64(x)) == x
  {
    FixedRoundTrip(x, 8);
    PowerValues();
  }

  lemma U32RoundTrip(x: uint32)
    ensures ToNat(U32(x)) == x
  {
    FixedRoundTrip(x, 4);
    PowerValues();
  }

  // ---------- field lists ----------

  /** A field of known size, or one written after its eight-byte length. */
  datatype Field = Fixed(size: nat) | Prefixed

  predicate FitsField(f: Field, v: seq<byte>) {
    match f case Fixed(size) => |v| == size case Prefixed => |v| < TWO_64
  }

  predicate Fits(layout: seq<Field>, values: seq<seq<byte>>) {
    |layout| == |values| && forall i :: 0 <= i < |layout| ==> FitsField(layout[i], values[i])
  }

  function EncodeField(f: Field, v: seq<byte>): seq<byte>
    requires FitsField(f, v)
  {
    match f case Fixed(_) => v case Prefixed => U64(|v|) + v
  }

  function EncodeAll(layout: seq<Field>, values: seq<seq<byte>>): seq<byte>
    requires Fits(layout, values)
  {
    if layout == [] then [] else EncodeField(layout[0], values[0]) + EncodeAll(layout[1..], values[1..])
  }

  function DecodeField(f: Field, s: seq<byte>): Option<(seq<byte>, seq<byte>)> {
    match f
    case Fixed(size) => if |s| < size then None else Some((s[..size], s[size..]))
    case Prefixed =>
      if |s| < 8 || |s| - 8 < ToNat(s[..8]) then None
      else Some((s[8..8 + ToNat(s[..8])], s[8 + ToNat(s[..8])..]))
  }

  function DecodeAll(layout: seq<Field>, s: seq<byte>): Option<(seq<seq<byte>>, seq<byte>)> {
    if layout == [] then Some(([], s))
    else
      match DecodeField(layout[0], s)
      case None => None
      case Some((v, rest)) =>
        match DecodeAll(layout[1..], rest)
        case None => None
        case Some((vs, end)) => Some(([v] + vs, end))
  }

  lemma FieldRoundTrip(f: Field, v: seq<byte>, rest: seq<byte>)
    requires FitsField(f, v)
    ensures DecodeField(f, EncodeField(f, v) + rest) == Some((v, rest))
  {
    var s := EncodeField(f, v) + rest;
    match f
    case Fixed(size) =>
      assert s[..size] == v && s[size..] == rest;
    case Prefixed =>
      U64RoundTrip(|v|);
      assert s[..8] == U64(|v|);
      assert s[8..8 + |v|] == v && s[8 + |v|..] == rest;
  }

  lemma EncodeStep(layout: seq<Field>, values: seq<seq<byte>>, rest: seq<byte>)
    requires Fits(layout, values) && layout != []
    ensures Fits(layout[1..], values[1..])
    ensures EncodeAll(layout, values) + rest ==
              EncodeField(layout[0], values[0]) + (EncodeAll(layout[1..], values[1..]) + rest)
  {
    var head, tail := EncodeField(layout[0], values[0]), EncodeAll(layout[1..], values[1..]);
    assert (head + tail) + rest == head + (tail + rest);
  }

  lemma DecodeStep(layout: seq<Field>, s: seq<byte>, values: seq<seq<byte>>, mid: seq<byte>, end: seq<byte>)
    requires layout != [] && values != [] && DecodeField(layout[0], s) == Some((values[0], mid))
    requires DecodeAll(layout[1..], mid) == Some((values[1..], end))
    ensures DecodeAll(layout, s) == Some((values, end))
  {
    assert [values[0]] + values[1..] == values;
  }

  lemma {:induction false} FieldsRoundTrip(layout: seq<Field>, values: seq<seq<byte>>, rest: seq<byte>)
    requires Fits(layout, values)
    ensures DecodeAll(layout, EncodeAll(layout, values) + rest) == Some((values, rest))
  {
    if layout == [] {
      assert EncodeAll(layout, values) + rest == rest;
    } else {
      EncodeStep(layout, values, rest);
      var tail := EncodeAll(layout[1..], values[1..]) + rest;
      FieldsRoundTrip(layout[1..], values[1..], rest);
      FieldRoundTrip(layout[0], values[0], tail);
      DecodeStep(layout, EncodeAll(layout, values) + rest, values, tail, rest);
    }
  }

  // ---------- lists of records ----------

  function EncodeList<T>(encode: T -> seq<byte>, xs: seq<T>): seq<byte> {
    if xs == [] then [] else encode(xs[0]) + EncodeList(encode, xs[1..])
  }

  function DecodeList<T>(decode: seq<byte> -> Option<(T, seq<byte>)>, n: nat, s: seq<byte>)
    : (r: Option<(seq<T>, seq<byte>)>)
    ensures r.Some? ==> |r.value.0| == n
  {
    if n == 0 then Some(([], s))
    else
      match decode(s)
      case None => None
      case Some((x, rest)) =>
        match DecodeList(decode, n - 1, rest)
        case None => None
        case Some((xs, end)) => Some(([x] + xs, end))
  }

  function Map<T>(f: T -> T, xs: seq<T>): (r: seq<T>)
    ensures |r| == |xs|
  {
    if xs == [] then [] else [f(xs[0])] + Map(f, xs[1..])
  }

  /** A record codec that is self-delimiting extends to lists of known length. */
  lemma {:induction false} ListRoundTrip<T(!new)>(
    encode: T -> seq<byte>, decode: seq<byte> -> Option<(T, seq<byte>)>, canonical: T -> T, xs: seq<T>, rest: seq<byte>)
    requires forall x, r :: decode(encode(x) + r) == Some((canonical(x), r))
    ensures DecodeList(decode, |xs|, EncodeList(encode, xs) + rest) == Some((Map(canonical, xs), rest))
  {
    if xs == [] {
      assert EncodeList(encode, xs) + rest == rest;
    } else {
      var others := EncodeList(encode, xs[1..]);
      ListRoundTrip(encode, decode, canonical, xs[1..], rest);
      assert EncodeList(encode, xs) + rest == encode(xs[0]) + (others + rest);
    }
  }

  lemma {:induction false} SameEncodings<T(!new)>(encode: T -> seq<byte>, canonical: T -> T, xs: seq<T>)
    requires forall x :: encode(canonical(x)) == encode(x)
    ensures EncodeList(encode, Map(canonical, xs)) == EncodeList(encode, xs)
  {
    if xs != [] {
      SameEncodings(encode, canonical, xs[1..]);
      assert Map(canonical, xs)[1..] == Map(canonical, xs[1..]);
    }
  }

  /** Encoding a layout one field longer appends that field. */
  lemma {:induction false} EncodeAllSnoc(layout: seq<Field>, values: seq<seq<byte>>, f: Field, v: seq<byte>)
    requires Fits(layout, values) && FitsField(f, v)
    ensures Fits(layout + [f], values + [v])
    ensures EncodeAll(layout + [f], values + [v]) == EncodeAll(layout, values) + EncodeField(f, v)
  {
    var l, w := layout + [f], values + [v];
    FitsSnoc(layout, values, f, v);
    if layout == [] {
      assert l[1..] == [] && w[1..] == [];
    } else {
      EncodeAllSnoc(layout[1..], values[1..], f, v);
      assert l[1..] == layout[1..] + [f] && w[1..] == values[1..] + [v];
      EncodeCons(layout, values);
      EncodeCons(l, w);
      AppendIsAssociative(EncodeField(layout[0], values[0]), EncodeAll(layout[1..], values[1..]), EncodeField(f, v));
    }
  }

  lemma FitsSnoc(layout: seq<Field>, values: seq<seq<byte>>, f: Field, v: seq<byte>)
    requires Fits(layout, values) && FitsField(f, v)
    ensures Fits(layout + [f], values + [v])
  {
  }

  lemma EncodeCons(layout: seq<Field>, values: seq<seq<byte>>)
    requires Fits(layout, values) && layout != []
    ensures Fits(layout[1..], values[1..])
    ensures EncodeAll(layout, values) == EncodeField(layout[0], values[0]) + EncodeAll(layout[1..], values[1..])
  {
  }

  lemma AppendIsAssociative(a: seq<byte>, b: seq<byte>, c: seq<byte>)
    ensures (a + b) + c == a + (b + c)
  {
  }

  method AppendFields(layout: seq<Field>, fields: seq<seq<byte>>) returns (data: seq<byte>)
    requires Fits(layout, fields)
    ensures data == EncodeAll(layout, fields)
  {
    data := [];
    for i := 0 to |fields|
      invariant Fits(layout[..i], fields[..i])
      invariant data == EncodeAll(layout[..i], fields[..i])
    {
      EncodeAllSnoc(layout[..i], fields[..i], layout[i], fields[i]);
      assert layout[..i + 1] == layout[..i] + [layout[i]] && fields[..i + 1] == fields[..i] + [fields[i]];
      data := data + EncodeField(layout[i], fields[i]);
    }
    assert layout[..|fields|] == layout && fields[..|fields|] == fields;
  }

  method AppendRecords<T>(start: seq<byte>, encode: T -> seq<byte>, xs: seq<T>) returns (data: seq<byte>)
    ensures data == start + EncodeList(encode, xs)
  {
    data := start;
    for k := 0 to |xs|
      invariant data + EncodeList(encode, xs[k..]) == start + EncodeList(encode, xs)
    {
      assert xs[k..][1..] == xs[k + 1..];
      var piece := encode(xs[k]);
      ghost var rest := EncodeList(encode, xs[k + 1..]);
      assert data + (piece + rest) == (data + piece) + rest;
      data := data + piece;
    }
    assert data + [] == data;
  }

  // ---------- staker records ----------

  const STAKER_HEAD := [Fixed(20), Fixed(32), Fixed(8), Fixed(1)]
  const UNLOCKING_TAIL := [Fixed(8), Fixed(1)]
  const PLAIN_TAIL := [Fixed(1)]

  function Flag(b: bool): (r: seq<byte>)
    ensures |r| == 1
  {
    if b then [1] else [0]
  }

  function StakerHead(k: Staker): seq<seq<byte>> {
    [k.address, SafeBigIntToBytes(k.amount, 32), U64(k.registeredHeight), Flag(k.unlockStakeHeight.Some?)]
  }

  function EncodeTail(unlock: Option<uint64>, isActive: bool): seq<byte> {
    match unlock
    case Some(height) => EncodeAll(UNLOCKING_TAIL, [U64(height), Flag(isActive)])
    case None => EncodeAll(PLAIN_TAIL, [Flag(isActive)])
  }

  function EncodeStaker(k: Staker): seq<byte> {
    EncodeAll(STAKER_HEAD, StakerHead(k)) + EncodeTail(k.unlockStakeHeight, k.isActive)
  }

  /** The rest of a record once its flag has been read. */
  function DecodeTail(unlocking: bool, s: seq<byte>): Option<(Option<uint64>, bool, seq<byte>)> {
    if unlocking then
      match DecodeAll(UNLOCKING_TAIL, s)
      case None => None
      case Some((tail, end)) =>
        if !Fits(UNLOCKING_TAIL, tail) || ToNat(tail[0]) >= TWO_64 || tail[1][0] > 1 then None
        else Some((Some(ToNat(tail[0])), tail[1][0] == 1, end))
    else
      match DecodeAll(PLAIN_TAIL, s)
      case None => None
      case Some((tail, end)) =>
        if !Fits(PLAIN_TAIL, tail) || tail[0][0] > 1 then None
        else Some((None, tail[0][0] == 1, end))
  }

  function DecodeStaker(s: seq<byte>): Option<(Staker, seq<byte>)> {
    match DecodeAll(STAKER_HEAD, s)
    case None => None
    case Some((head, rest)) =>
      if !Fits(STAKER_HEAD, head) || ToNat(head[2]) >= TWO_64 || head[3][0] > 1 then None
      else
        match DecodeTail(head[3][0] == 1, rest)
        case None => None
        case Some((unlock, isActive, end)) =>
          Some((Staker(head[0], Some(ToNat(head[1])), ToNat(head[2]), unlock, isActive), end))
  }

  /** What the 32 hashed bytes keep of a big integer. */
  function Low256(value: Option<int>): Option<int> {
    Some(ToNat(SafeBigIntToBytes(value, 32)))
  }

  /** They keep its magnitude modulo 2^256, so every value in [0, 2^256) and no sign. */
  lemma Low256Meaning(value: Option<int>)
    ensures Low256(value) == Some(Magnitude(value) % Pow256(32))
  {
    FixedRoundTrip(Magnitude(value), 32);
  }

  lemma Low256SameBytes(value: Option<int>)
    ensures SafeBigIntToBytes(Low256(value), 32) == SafeBigIntToBytes(value, 32)
  {
    FixedOfNat(SafeBigIntToBytes(value, 32));
  }

  function CanonicalStaker(k: Staker): Staker {
    k.(amount := Low256(k.amount))
  }

  lemma TailRoundTrip(unlock: Option<uint64>, isActive: bool, rest: seq<byte>)
    ensures DecodeTail(unlock.Some?, EncodeTail(unlock, isActive) + rest) == Some((unlock, isActive, rest))
  {
    match unlock
    case Some(height) =>
      U64RoundTrip(height);
      FieldsRoundTrip(UNLOCKING_TAIL, [U64(height), Flag(isActive)], rest);
    case None =>
      FieldsRoundTrip(PLAIN_TAIL, [Flag(isActive)], rest);
  }

  lemma StakerRoundTrip(k: Staker, rest: seq<byte>)
    ensures DecodeStaker(EncodeStaker(k) + rest) == Some((CanonicalStaker(k), rest))
  {
    var head, tail := EncodeAll(STAKER_HEAD, StakerHead(k)), EncodeTail(k.unlockStakeHeight, k.isActive);
    AppendIsAssociative(head, tail, rest);
    StakerDecodedFrom(StakerHead(k), k, rest);
  }

  lemma StakerDecodedFrom(f: seq<seq<byte>>, k: Staker, rest: seq<byte>)
    requires Fits(STAKER_HEAD, f) && f[0] == k.address && f[1] == SafeBigIntToBytes(k.amount, 32)
    requires f[2] == U64(k.registeredHeight) && f[3] == Flag(k.unlockStakeHeight.Some?)
    ensures DecodeStaker(EncodeAll(STAKER_HEAD, f) + (EncodeTail(k.unlockStakeHeight, k.isActive) + rest))
         == Some((CanonicalStaker(k), rest))
  {
    TailRoundTrip(k.unlockStakeHeight, k.isActive, rest);
    U64RoundTrip(k.registeredHeight);
    FieldsRoundTrip(STAKER_HEAD, f, EncodeTail(k.unlockStakeHeight, k.isActive) + rest);
  }

  lemma StakersRoundTrip(stakers: seq<Staker>, rest: seq<byte>)
    ensures DecodeList(DecodeStaker, |stakers|, EncodeList(EncodeStaker, stakers) + rest)
         == Some((Map(CanonicalStaker, stakers), rest))
  {
    forall k, r ensures DecodeStaker(EncodeStaker(k) + r) == Some((CanonicalStaker(k), r)) {
      StakerRoundTrip(k, r);
    }
    ListRoundTrip(EncodeStaker, DecodeStaker, CanonicalStaker, stakers, rest);
  }

  // ---------- the whole preimage ----------

  const LINK_LAYOUT := [Fixed(32), Fixed(32), Fixed(20), Fixed(32), Fixed(32), Fixed(32), Fixed(256), Fixed(32)]
  const WORK_LAYOUT := [Fixed(8), Fixed(8), Fixed(8), Fixed(32), Prefixed, Prefixed, Fixed(32), Fixed(8)]
  const UPGRADE_LAYOUT := [Fixed(4), Fixed(4), Fixed(8), Prefixed, Fixed(20), Fixed(32), Fixed(32), Fixed(8)]
  const HEADER_LAYOUT := LINK_LAYOUT + WORK_LAYOUT + UPGRADE_LAYOUT

  function LinkFields(h: Header): (r: seq<seq<byte>>)
    ensures Fits(LINK_LAYOUT, r)
  {
    [h.parentHash, h.uncleHash, h.coinbase, h.root, h.txHash, h.receiptHash,
     BloomBytes(h.bloom), SafeBigIntToBytes(h.number, 32)]
  }

  function WorkFields(h: Header): (r: seq<seq<byte>>)
    ensures Fits(WORK_LAYOUT, r)
  {
    [U64(h.gasLimit), U64(h.gasUsed), U64(h.time), SafeBigIntToBytes(h.difficulty, 32),
     h.extra, h.signature, h.mixDigest, h.nonce]
  }

  function UpgradeFields(h: Header): (r: seq<seq<byte>>)
    ensures Fits(UPGRADE_LAYOUT, r)
  {
    [U32(h.version), U32(h.protocolVersion), U64(h.upgradeTimestamp), h.upgradeName,
     h.mainKingAddress, SafeBigIntToBytes(h.rewardAmount, 32), SafeBigIntToBytes(h.currentReward, 32),
     U64(|h.stakers|)]
  }

  lemma FitsConcat(l: seq<Field>, v: seq<seq<byte>>, l': seq<Field>, v': seq<seq<byte>>)
    requires Fits(l, v) && Fits(l', v')
    ensures Fits(l + l', v + v')
  {
  }

  /** The header's fields in hashing order; the last one counts the stakers that follow. */
  function HeaderFields(h: Header): (r: seq<seq<byte>>)
    ensures Fits(HEADER_LAYOUT, r)
  {
    FitsConcat(LINK_LAYOUT, LinkFields(h), WORK_LAYOUT, WorkFields(h));
    FitsConcat(LINK_LAYOUT + WORK_LAYOUT, LinkFields(h) + WorkFields(h), UPGRADE_LAYOUT, UpgradeFields(h));
    LinkFields(h) + WorkFields(h) + UpgradeFields(h)
  }

  function Preimage(h: Header): seq<byte> {
    EncodeAll(HEADER_LAYOUT, HeaderFields(h)) + EncodeList(EncodeStaker, h.stakers)
  }

  /** The buffer is filled field by field, then staker by staker. */
  method BuildPreimage(h: Header) returns (data: seq<byte>)
    ensures data == Preimage(h)
  {
    data := AppendFields(HEADER_LAYOUT, HeaderFields(h));
    data := AppendRecords(data, EncodeStaker, h.stakers);
  }

  /** The part of a header its preimage determines. */
  function Canonical(h: Header): Header {
    h.(bloom := BloomBytes(h.bloom), number := Low256(h.number), difficulty := Low256(h.difficulty),
       rewardAmount := Low256(h.rewardAmount), currentReward := Low256(h.currentReward),
       stakers := Map(CanonicalStaker, h.stakers), txRoot := seq(32, _ => 0))
  }

  /** Rebuilds a header from decoded fields and stakers. */
  function FromFields(f: seq<seq<byte>>, stakers: Stakers): Option<Header>
    requires Fits(HEADER_LAYOUT, f)
  {
    assert HEADER_LAYOUT[0] == Fixed(32);
    if ToNat(f[8]) < TWO_64 && ToNat(f[9]) < TWO_64 && ToNat(f[10]) < TWO_64 && ToNat(f[18]) < TWO_64
       && ToNat(f[16]) < TWO_32 && ToNat(f[17]) < TWO_32
    then
      Some(Header(f[0], f[1], f[2], f[3], f[4], f[5], f[6], Some(ToNat(f[11])), Some(ToNat(f[7])),
                  ToNat(f[8]), ToNat(f[9]), ToNat(f[10]), f[12], f[13], f[14], f[15], ToNat(f[16]), ToNat(f[17]),
                  f[19], ToNat(f[18]), f[20], Some(ToNat(f[21])), Some(ToNat(f[22])), stakers, seq(32, _ => 0)))
    else None
  }

  function Decode(s: seq<byte>): Option<Header>
  {
    match DecodeAll(HEADER_LAYOUT, s)
    case None => None
    case Some((fields, rest)) =>
      if !Fits(HEADER_LAYOUT, fields) || ToNat(fields[23]) >= TWO_64 then None
      else
        match DecodeList(DecodeStaker, ToNat(fields[23]), rest)
        case None => None
        case Some((stakers, end)) => if end == [] then FromFields(fields, stakers) else None
  }

  predicate HoldsLinks(f: seq<seq<byte>>, h: Header)
    requires |f| == 24
  {
    && f[0] == h.parentHash && f[1] == h.uncleHash && f[2] == h.coinbase && f[3] == h.root
    && f[4] == h.txHash && f[5] == h.receiptHash && f[6] == BloomBytes(h.bloom)
    && f[7] == SafeBigIntToBytes(h.number, 32)
  }

  predicate HoldsWork(f: seq<seq<byte>>, h: Header)
    requires |f| == 24
  {
    && f[8] == U64(h.gasLimit) && f[9] == U64(h.gasUsed) && f[10] == U64(h.time)
    && f[11] == SafeBigIntToBytes(h.difficulty, 32) && f[12] == h.extra && f[13] == h.signature
    && f[14] == h.mixDigest && f[15] == h.nonce
  }

  predicate HoldsUpgrade(f: seq<seq<byte>>, h: Header)
    requires |f| == 24
  {
    && f[16] == U32(h.version) && f[17] == U32(h.protocolVersion) && f[18] == U64(h.upgradeTimestamp)
    && f[19] == h.upgradeName && f[20] == h.mainKingAddress && f[21] == SafeBigIntToBytes(h.rewardAmount, 32)
    && f[22] == SafeBigIntToBytes(h.currentReward, 32) && f[23] == U64(|h.stakers|)
  }

  /** What stands in each place of a header's field list. */
  predicate Holds(f: seq<seq<byte>>, h: Header) {
    |f| == 24 && HoldsLinks(f, h) && HoldsWork(f, h) && HoldsUpgrade(f, h)
  }

  /** Place `i` of three blocks of eight. */
  lemma PlaceIn<T>(a: seq<T>, b: seq<T>, c: seq<T>, i: nat)
    requires |a| == |b| == |c| == 8 && i < 8
    ensures (a + b + c)[i] == a[i] && (a + b + c)[8 + i] == b[i] && (a + b + c)[16 + i] == c[i]
  {
  }

  lemma Places<T>(a: seq<T>, b: seq<T>, c: seq<T>)
    requires |a| == |b| == |c| == 8
    ensures var f := a + b + c;
            && f[0] == a[0] && f[1] == a[1] && f[2] == a[2] && f[3] == a[3]
            && f[4] == a[4] && f[5] == a[5] && f[6] == a[6] && f[7] == a[7]
            && f[8] == b[0] && f[9] == b[1] && f[10] == b[2] && f[11] == b[3]
            && f[12] == b[4] && f[13] == b[5] && f[14] == b[6] && f[15] == b[7]
            && f[16] == c[0] && f[17] == c[1] && f[18] == c[2] && f[19] == c[3]
            && f[20] == c[4] && f[21] == c[5] && f[22] == c[6] && f[23] == c[7]
  {
    PlaceIn(a, b, c, 0);
    PlaceIn(a, b, c, 1);
    PlaceIn(a, b, c, 2);
    PlaceIn(a, b, c, 3);
    PlaceIn(a, b, c, 4);
    PlaceIn(a, b, c, 5);
    PlaceIn(a, b, c, 6);
    PlaceIn(a, b, c, 7);
  }

  lemma HeaderFieldsHold(h: Header)
    ensures Holds(HeaderFields(h), h)
  {
    Places(LinkFields(h), WorkFields(h), UpgradeFields(h));
  }

  lemma RebuiltFrom(f: seq<seq<byte>>, h: Header)
    requires Fits(HEADER_LAYOUT, f) && Holds(f, h)
    ensures FromFields(f, Map(CanonicalStaker, h.stakers)) == Some(Canonical(h))
  {
    U64RoundTrip(h.gasLimit);
    U64RoundTrip(h.gasUsed);
    U64RoundTrip(h.time);
    U64RoundTrip(h.upgradeTimestamp);
    U32RoundTrip(h.version);
    U32RoundTrip(h.protocolVersion);
  }

  lemma DecodedFrom(f: seq<seq<byte>>, h: Header)
    requires Fits(HEADER_LAYOUT, f) && Holds(f, h)
    ensures Decode(EncodeAll(HEADER_LAYOUT, f) + EncodeList(EncodeStaker, h.stakers)) == Some(Canonical(h))
  {
    var tail := EncodeList(EncodeStaker, h.stakers);
    FieldsRoundTrip(HEADER_LAYOUT, f, tail);
    U64RoundTrip(|h.stakers|);
    StakersRoundTrip(h.stakers, []);
    assert tail + [] == tail;
    RebuiltFrom(f, h);
  }

  /** The decoder inverts the preimage of every header, up to what hashing forgets. */
  lemma DecodeInverts(h: Header)
    ensures Decode(Preimage(h)) == Some(Canonical(h))
  {
    HeaderFieldsHold(h);
    DecodedFrom(HeaderFields(h), h);
  }

  // ---------- what hashing forgets ----------

  lemma BloomBytesIdempotent(bloom: seq<byte>)
    ensures BloomBytes(BloomBytes(bloom)) == BloomBytes(bloom)
  {
  }

  lemma CanonicalStakersEncode(stakers: seq<Staker>)
    ensures EncodeList(EncodeStaker, Map(CanonicalStaker, stakers)) == EncodeList(EncodeStaker, stakers)
  {
    forall k ensures EncodeStaker(CanonicalStaker(k)) == EncodeStaker(k) {
      Low256SameBytes(k.amount);
      assert StakerHead(CanonicalStaker(k)) == StakerHead(k);
    }
    SameEncodings(EncodeStaker, CanonicalStaker, stakers);
  }

  lemma CanonicalSamePreimage(h: Header)
    ensures Preimage(Canonical(h)) == Preimage(h)
  {
    Low256SameBytes(h.number);
    Low256SameBytes(h.difficulty);
    Low256SameBytes(h.rewardAmount);
    Low256SameBytes(h.currentReward);
    BloomBytesIdempotent(h.bloom);
    CanonicalStakersEncode(h.stakers);
    assert HeaderFields(Canonical(h)) == HeaderFields(h);
  }

  /** Two headers share a preimage exactly when they agree up to the forgotten parts. */
  lemma PreimagesAgreeIff(h: Header, h': Header)
    ensures Preimage(h) == Preimage(h') <==> Canonical(h) == Canonical(h')
  {
    DecodeInverts(h);
    DecodeInverts(h');
    CanonicalSamePreimage(h);
    CanonicalSamePreimage(h');
  }

  /** Byte `i` of a bloom filter once it has been cut or zero-filled to its length. */
  function BloomAt(bloom: seq<byte>, i: nat): byte {
    if i < |bloom| then bloom[i] else 0
  }

  lemma SameBloomIff(bloom: seq<byte>, bloom': seq<byte>)
    ensures BloomBytes(bloom) == BloomBytes(bloom') <==>
              forall i :: 0 <= i < 256 ==> BloomAt(bloom, i) == BloomAt(bloom', i)
  {
    assert forall i :: 0 <= i < 256 ==> BloomBytes(bloom)[i] == BloomAt(bloom, i);
    assert forall i :: 0 <= i < 256 ==> BloomBytes(bloom')[i] == BloomAt(bloom', i);
  }

  /** A bloom filter of the standard length is hashed as it is, and a shorter one with zeros after it. */
  lemma BloomKept(bloom: seq<byte>)
    ensures |bloom| == 256 ==> BloomBytes(bloom) == bloom
    ensures |bloom| < 256 ==> BloomBytes(bloom) == bloom + seq(256 - |bloom|, _ => 0)
    ensures |bloom| > 256 ==> BloomBytes(bloom) == bloom[..256]
  {
  }

  /** Equal up to sign and to multiples of 2^256, an absent number counting as zero. */
  predicate SameNumber(x: Option<int>, y: Option<int>) {
    var m := if x.None? then 0 else if x.value < 0 then -x.value else x.value;
    var n := if y.None? then 0 else if y.value < 0 then -y.value else y.value;
    m % TWO_256 == n % TWO_256
  }

  lemma PowerOf16()
    ensures Pow256(16) == TWO_64 * TWO_64
  {
    PowerValues();
    assert Pow256(12) == 256 * 256 * 256 * 256 * Pow256(8);
    assert Pow256(16) == 256 * 256 * 256 * 256 * Pow256(12);
  }

  lemma PowerOf32()
    ensures Pow256(32) == TWO_256
  {
    PowerOf16();
    assert Pow256(20) == 256 * 256 * 256 * 256 * Pow256(16);
    assert Pow256(24) == 256 * 256 * 256 * 256 * Pow256(20);
    assert Pow256(28) == 256 * 256 * 256 * 256 * Pow256(24);
    assert Pow256(32) == 256 * 256 * 256 * 256 * Pow256(28);
  }

  lemma SameNumberIff(x: Option<int>, y: Option<int>)
    ensures Low256(x) == Low256(y) <==> SameNumber(x, y)
  {
    Low256Meaning(x);
    Low256Meaning(y);
    PowerOf32();
  }

  predicate SameStaker(k: Staker, k': Staker) {
    && k.address == k'.address && SameNumber(k.amount, k'.amount) && k.registeredHeight == k'.registeredHeight
    && k.unlockStakeHeight == k'.unlockStakeHeight && k.isActive == k'.isActive
  }

  lemma {:induction false} SameStakersIff(ks: seq<Staker>, ks': seq<Staker>)
    ensures Map(CanonicalStaker, ks) == Map(CanonicalStaker, ks') <==>
              |ks| == |ks'| && forall i :: 0 <= i < |ks| ==> SameStaker(ks[i], ks'[i])
  {
    if ks != [] && ks' != [] {
      SameStakersIff(ks[1..], ks'[1..]);
      SameNumberIff(ks[0].amount, ks'[0].amount);
      var c, c' := Map(CanonicalStaker, ks), Map(CanonicalStaker, ks');
      assert c == c' <==> c[0] == c'[0] && c[1..] == c'[1..] by {
        assert c == [c[0]] + c[1..] && c' == [c'[0]] + c'[1..];
      }
    }
  }

  predicate SameLinks(h: Header, h': Header) {
    && h.parentHash == h'.parentHash && h.uncleHash == h'.uncleHash && h.coinbase == h'.coinbase
    && h.root == h'.root && h.txHash == h'.txHash && h.receiptHash == h'.receiptHash
    && (forall i :: 0 <= i < 256 ==> BloomAt(h.bloom, i) == BloomAt(h'.bloom, i))
    && SameNumber(h.number, h'.number)
  }

  predicate SameWork(h: Header, h': Header) {
    && h.gasLimit == h'.gasLimit && h.gasUsed == h'.gasUsed && h.time == h'.time
    && SameNumber(h.difficulty, h'.difficulty) && h.extra == h'.extra && h.signature == h'.signature
    && h.mixDigest == h'.mixDigest && h.nonce == h'.nonce
  }

  predicate SameUpgrade(h: Header, h': Header) {
    && h.version == h'.version && h.protocolVersion == h'.protocolVersion
    && h.upgradeTimestamp == h'.upgradeTimestamp && h.upgradeName == h'.upgradeName
    && h.mainKingAddress == h'.mainKingAddress && SameNumber(h.rewardAmount, h'.rewardAmount)
    && SameNumber(h.currentReward, h'.currentReward)
    && |h.stakers| == |h'.stakers|
    && forall i :: 0 <= i < |h.stakers| ==> SameStaker(h.stakers[i], h'.stakers[i])
  }

  lemma CanonicalAgreeIff(h: Header, h': Header)
    ensures Canonical(h) == Canonical(h') <==> SameLinks(h, h') && SameWork(h, h') && SameUpgrade(h, h')
  {
    SameBloomIff(h.bloom, h'.bloom);
    SameNumberIff(h.number, h'.number);
    SameNumberIff(h.difficulty, h'.difficulty);
    SameNumberIff(h.rewardAmount, h'.rewardAmount);
    SameNumberIff(h.currentReward, h'.currentReward);
    SameStakersIff(h.stakers, h'.stakers);
  }

  /** Field by field: two headers share a preimage exactly when they agree on everything that is hashed. */
  lemma HashBindsFieldsIff(h: Header, h': Header)
    ensures Preimage(h) == Preimage(h') <==> SameLinks(h, h') && SameWork(h, h') && SameUpgrade(h, h')
  {
    PreimagesAgreeIff(h, h');
    CanonicalAgreeIff(h, h');
  }

  // ---------- the bytes in their order ----------

  lemma WithoutLast<T>(s: seq<T>)
    requires s != []
    ensures s == s[..|s| - 1] + [s[|s| - 1]]
  {
  }

  lemma {:induction false} EncodeAllConcat(l: seq<Field>, v: seq<seq<byte>>, l': seq<Field>, v': seq<seq<byte>>)
    requires Fits(l, v) && Fits(l', v')
    ensures Fits(l + l', v + v') && EncodeAll(l + l', v + v') == EncodeAll(l, v) + EncodeAll(l', v')
  {
    FitsConcat(l, v, l', v');
    if l' == [] {
      assert l + l' == l && v + v' == v;
    } else {
      var n := |l'| - 1;
      var front, vfront, f, x := l'[..n], v'[..n], l'[n], v'[n];
      EncodeAllConcat(l, v, front, vfront);
      EncodeAllSnoc(front, vfront, f, x);
      EncodeAllSnoc(l + front, v + vfront, f, x);
      WithoutLast(l');
      WithoutLast(v');
      assert l + l' == (l + front) + [f] && v + v' == (v + vfront) + [x];
      AppendIsAssociative(EncodeAll(l, v), EncodeAll(front, vfront), EncodeField(f, x));
    }
  }

  /** Byte strings one after the other. */
  function Joined(pieces: seq<seq<byte>>): seq<byte> {
    if pieces == [] then [] else pieces[0] + Joined(pieces[1..])
  }

  lemma {:induction false} JoinedConcat(a: seq<seq<byte>>, b: seq<seq<byte>>)
    ensures Joined(a + b) == Joined(a) + Joined(b)
  {
    if a == [] {
      assert a + b == b;
    } else {
      JoinedConcat(a[1..], b);
      assert (a + b)[1..] == a[1..] + b;
      AppendIsAssociative(a[0], Joined(a[1..]), Joined(b));
    }
  }

  lemma {:induction false} JoinedFields(layout: seq<Field>, values: seq<seq<byte>>, pieces: seq<seq<byte>>)
    requires Fits(layout, values) && |pieces| == |layout|
    requires forall i :: 0 <= i < |layout| ==> pieces[i] == EncodeField(layout[i], values[i])
    ensures EncodeAll(layout, values) == Joined(pieces)
  {
    if layout != [] {
      EncodeCons(layout, values);
      JoinedFields(layout[1..], values[1..], pieces[1..]);
    }
  }

  /** The hashed bytes in full: every field in its place, numbers and counts big-endian, lengths where needed. */
  lemma PreimageLayout(h: Header)
    ensures Preimage(h) ==
              Joined([h.parentHash, h.uncleHash, h.coinbase, h.root, h.txHash, h.receiptHash, BloomBytes(h.bloom),
                      FixedBytes(Magnitude(h.number), 32)]
                     + [FixedBytes(h.gasLimit, 8), FixedBytes(h.gasUsed, 8), FixedBytes(h.time, 8),
                        FixedBytes(Magnitude(h.difficulty), 32), FixedBytes(|h.extra|, 8) + h.extra,
                        FixedBytes(|h.signature|, 8) + h.signature, h.mixDigest, h.nonce]
                     + [FixedBytes(h.version, 4), FixedBytes(h.protocolVersion, 4), FixedBytes(h.upgradeTimestamp, 8),
                        FixedBytes(|h.upgradeName|, 8) + h.upgradeName, h.mainKingAddress,
                        FixedBytes(Magnitude(h.rewardAmount), 32), FixedBytes(Magnitude(h.currentReward), 32),
                        FixedBytes(|h.stakers|, 8)])
              + EncodeList(EncodeStaker, h.stakers)
  {
    var link := [h.parentHash, h.uncleHash, h.coinbase, h.root, h.txHash, h.receiptHash, BloomBytes(h.bloom),
                 FixedBytes(Magnitude(h.number), 32)];
    var work := [FixedBytes(h.gasLimit, 8), FixedBytes(h.gasUsed, 8), FixedBytes(h.time, 8),
                 FixedBytes(Magnitude(h.difficulty), 32), FixedBytes(|h.extra|, 8) + h.extra,
                 FixedBytes(|h.signature|, 8) + h.signature, h.mixDigest, h.nonce];
    var upgrade := [FixedBytes(h.version, 4), FixedBytes(h.protocolVersion, 4), FixedBytes(h.upgradeTimestamp, 8),
                    FixedBytes(|h.upgradeName|, 8) + h.upgradeName, h.mainKingAddress,
                    FixedBytes(Magnitude(h.rewardAmount), 32), FixedBytes(Magnitude(h.currentReward), 32),
                    FixedBytes(|h.stakers|, 8)];
    JoinedFields(LINK_LAYOUT, LinkFields(h), link);
    JoinedFields(WORK_LAYOUT, WorkFields(h), work);
    JoinedFields(UPGRADE_LAYOUT, UpgradeFields(h), upgrade);
    JoinedConcat(link, work);
    JoinedConcat(link + work, upgrade);
    EncodeAllConcat(LINK_LAYOUT, LinkFields(h), WORK_LAYOUT, WorkFields(h));
    EncodeAllConcat(LINK_LAYOUT + WORK_LAYOUT, LinkFields(h) + WorkFields(h), UPGRADE_LAYOUT, UpgradeFields(h));
  }

  /** One staker's record; the unlock height is written only when there is one, after a flag. */
  lemma StakerLayout(k: Staker)
    ensures EncodeStaker(k) ==
              Joined([k.address, FixedBytes(Magnitude(k.amount), 32), FixedBytes(k.registeredHeight, 8),
                      if k.unlockStakeHeight.None? then [0] else [1]]
                     + (if k.unlockStakeHeight.None? then [] else [FixedBytes(k.unlockStakeHeight.value, 8)])
                     + [if k.isActive then [1] else [0]])
  {
    var head := [k.address, FixedBytes(Magnitude(k.amount), 32), FixedBytes(k.registeredHeight, 8),
                 if k.unlockStakeHeight.None? then [0] else [1]];
    var unlock := if k.unlockStakeHeight.None? then [] else [FixedBytes(k.unlockStakeHeight.value, 8)];
    var active := [if k.isActive then [1] else [0]];
    JoinedFields(STAKER_HEAD, StakerHead(k), head);
    JoinedConcat(head, unlock + active);
    assert head + unlock + active == head + (unlock + active);
    match k.unlockStakeHeight
    case Some(height) => JoinedFields(UNLOCKING_TAIL, [U64(height), Flag(k.isActive)], unlock + active);
    case None => JoinedFields(PLAIN_TAIL, [Flag(k.isActive)], unlock + active);
  }
}

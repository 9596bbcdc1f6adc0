/**
  What gets hashed when an order or a relayer transaction is signed: the EIP-712 struct, domain
  and final preimages (hashOrderTypedData in pkg/polymarket/signing.go) and the relayer's packed
  preimage (proxyStructHash in pkg/polymarket/relayer.go).  Keccak is an unknown function.
*/
module Preimages {
  import opened Common
  import opened GoStrings
  import opened Words

  /** An order after its decimal, address and hex strings have been parsed. */
  datatype Order = Order(
    salt: int, maker: Bytes, signer: Bytes, tokenId: int, makerAmount: int, takerAmount: int,
    side: string, signatureType: nat, timestamp: int, metadata: Option<Bytes>, builder: Option<Bytes>)

  type Hash = Bytes -> Bytes

  const CHAIN_ID := 137

  /** sideToUint: everything that is not SELL is signed as BUY. */
  function SideCode(side: string): nat {
    if Upper(side) == "SELL" then 1 else 0
  }

  predicate Addresses(o: Order) {
    |o.maker| == 20 && |o.signer| == 20
  }

  predicate Fits(v: int) { 0 <= v < Pow256(32) }

  predicate Full(b: Option<Bytes>) { b.Some? && |b.value| == 32 }

  /** The values the eleven fields can carry on the wire. */
  predicate WellFormed(o: Order) {
    && Addresses(o)
    && Fits(o.salt) && Fits(o.tokenId) && Fits(o.makerAmount) && Fits(o.takerAmount) && Fits(o.timestamp)
    && Fits(o.signatureType)
    && Full(o.metadata) && Full(o.builder)
  }

  /** uint256Pad succeeds on every number of the order. */
  predicate Paddable(o: Order) {
    && Uint256Pad(o.salt).Some? && Uint256Pad(o.tokenId).Some? && Uint256Pad(o.makerAmount).Some?
    && Uint256Pad(o.takerAmount).Some? && Uint256Pad(o.timestamp).Some? && Uint256Pad(o.signatureType).Some?
    && Uint256Pad(SideCode(o.side)).Some?
  }

  /** The type hash and the eleven fields, in the order of the Order type. */
  function OrderWords(typeHash: Bytes, o: Order): seq<Bytes>
    requires Addresses(o) && Paddable(o)
  {
    [typeHash, Uint256Pad(o.salt).value, AddressWord(o.maker), AddressWord(o.signer), Uint256Pad(o.tokenId).value,
     Uint256Pad(o.makerAmount).value, Uint256Pad(o.takerAmount).value, Uint256Pad(SideCode(o.side)).value,
     Uint256Pad(o.signatureType).value, Uint256Pad(o.timestamp).value, Bytes32Pad(o.metadata), Bytes32Pad(o.builder)]
  }

  /** The struct preimage; None where the code panics on a number of more than 256 bits. */
  function OrderPreimage(typeHash: Bytes, o: Order): Option<Bytes>
    requires Addresses(o)
  {
    if Paddable(o) then Some(Concat(OrderWords(typeHash, o))) else None
  }

  lemma SideCodeFits(side: string)
    ensures Uint256Pad(SideCode(side)).Some?
  {
    PadRoundTrip(SideCode(side));
    BigEndianLength(1, 1);
    BigEndianLength(SideCode(side), 32);
    assert |BigEndian(1)| == 1;
  }

  /** The preimage exists exactly for orders whose numbers are of magnitude below 2^256. */
  lemma PaddableIff(o: Order)
    ensures Paddable(o) <==>
              && Abs(o.salt) < Pow256(32) && Abs(o.tokenId) < Pow256(32) && Abs(o.makerAmount) < Pow256(32)
              && Abs(o.takerAmount) < Pow256(32) && Abs(o.timestamp) < Pow256(32) && Abs(o.signatureType) < Pow256(32)
  {
    PadRoundTrip(o.salt);
    PadRoundTrip(o.tokenId);
    PadRoundTrip(o.makerAmount);
    PadRoundTrip(o.takerAmount);
    PadRoundTrip(o.timestamp);
    PadRoundTrip(o.signatureType);
    SideCodeFits(o.side);
  }

  lemma OrderWordsAreWords(typeHash: Bytes, o: Order)
    requires |typeHash| == 32 && Addresses(o) && Paddable(o)
    ensures AllWords(OrderWords(typeHash, o)) && |OrderWords(typeHash, o)| == 12
  {
    PadIsWord(o.salt);
    PadIsWord(o.tokenId);
    PadIsWord(o.makerAmount);
    PadIsWord(o.takerAmount);
    PadIsWord(o.timestamp);
    PadIsWord(o.signatureType);
    PadIsWord(SideCode(o.side));
    Bytes32PadIsWord(o.metadata);
    Bytes32PadIsWord(o.builder);
    AddressWordInjective(o.maker, o.signer);
  }

  /** The struct preimage is twelve 32-byte words. */
  lemma OrderPreimageLength(typeHash: Bytes, o: Order)
    requires |typeHash| == 32 && Addresses(o) && Paddable(o)
    ensures OrderPreimage(typeHash, o).Some? && |OrderPreimage(typeHash, o).value| == 384
  {
    OrderWordsAreWords(typeHash, o);
    ConcatLength(OrderWords(typeHash, o));
  }

  /** Two orders are signed alike: the same magnitudes, addresses, side code and padded 32-byte values. */
  predicate SameSigned(a: Order, b: Order) {
    && Abs(a.salt) == Abs(b.salt) && a.maker == b.maker && a.signer == b.signer && Abs(a.tokenId) == Abs(b.tokenId)
    && Abs(a.makerAmount) == Abs(b.makerAmount) && Abs(a.takerAmount) == Abs(b.takerAmount)
    && SideCode(a.side) == SideCode(b.side) && a.signatureType == b.signatureType
    && Abs(a.timestamp) == Abs(b.timestamp)
    && Bytes32Pad(a.metadata) == Bytes32Pad(b.metadata) && Bytes32Pad(a.builder) == Bytes32Pad(b.builder)
  }

  /** Field by field, equal words are exactly equal signed values. */
  lemma OrderWordsEqualIff(typeHash: Bytes, a: Order, b: Order)
    requires Addresses(a) && Addresses(b) && Paddable(a) && Paddable(b)
    ensures OrderWords(typeHash, a) == OrderWords(typeHash, b) <==> SameSigned(a, b)
  {
    PadInjectiveIff(a.salt, b.salt);
    PadInjectiveIff(a.tokenId, b.tokenId);
    PadInjectiveIff(a.makerAmount, b.makerAmount);
    PadInjectiveIff(a.takerAmount, b.takerAmount);
    PadInjectiveIff(a.timestamp, b.timestamp);
    PadInjectiveIff(a.signatureType, b.signatureType);
    PadInjectiveIff(SideCode(a.side), SideCode(b.side));
    AddressWordInjective(a.maker, b.maker);
    AddressWordInjective(a.signer, b.signer);
    var x, y := OrderWords(typeHash, a), OrderWords(typeHash, b);
    if x == y {
      assert x[1] == y[1] && x[2] == y[2] && x[3] == y[3] && x[4] == y[4] && x[5] == y[5] && x[6] == y[6];
      assert x[7] == y[7] && x[8] == y[8] && x[9] == y[9] && x[10] == y[10] && x[11] == y[11];
    }
  }

  /** The struct preimage determines all eleven signed values, for every order that has a preimage. */
  lemma OrderPreimageInjective(typeHash: Bytes, a: Order, b: Order)
    requires |typeHash| == 32 && Addresses(a) && Addresses(b) && Paddable(a) && Paddable(b)
    ensures OrderPreimage(typeHash, a) == OrderPreimage(typeHash, b) <==> SameSigned(a, b)
  {
    OrderWordsAreWords(typeHash, a);
    OrderWordsAreWords(typeHash, b);
    OrderWordsEqualIff(typeHash, a, b);
    if OrderPreimage(typeHash, a) == OrderPreimage(typeHash, b) {
      ConcatInjective(OrderWords(typeHash, a), OrderWords(typeHash, b));
    }
  }

  /** On orders as they are meant to be, non-negative numbers and full 32-byte values, signed alike means equal
      in every field, the side up to how it is encoded. */
  lemma SameSignedIsSameFields(a: Order, b: Order)
    requires WellFormed(a) && WellFormed(b)
    ensures SameSigned(a, b) <==> a.(side := "") == b.(side := "") && SideCode(a.side) == SideCode(b.side)
  {
    Bytes32PadIsWord(a.metadata);
    Bytes32PadIsWord(b.metadata);
    Bytes32PadIsWord(a.builder);
    Bytes32PadIsWord(b.builder);
  }

  // ---------------------------------------------------------------- which bytes carry what

  /** p[i..i + 32] is a number, big-endian. */
  ghost predicate NumberAt(p: Bytes, i: nat, v: nat) {
    i + 32 <= |p| && ValueOf(p[i..i + 32]) == v
  }

  /** p[i..i + 32] is twelve zeros and an address. */
  ghost predicate AddressAt(p: Bytes, i: nat, addr: Bytes) {
    && i + 32 <= |p| && p[i + 12..i + 32] == addr
    && forall j :: i <= j < i + 12 ==> p[j] == 0
  }

  /** p[i..i + 32] is zeros and then the decoded bytes, if there are any and at most 32. */
  ghost predicate BytesAt(p: Bytes, i: nat, decoded: Option<Bytes>) {
    var n := if decoded.Some? && |decoded.value| <= 32 then |decoded.value| else 0;
    && i + 32 <= |p| && (n > 0 ==> p[i + 32 - n..i + 32] == decoded.value)
    && forall j :: i <= j < i + 32 - n ==> p[j] == 0
  }

  lemma NumberWord(p: Bytes, i: nat, v: int)
    requires i + 32 <= |p| && Uint256Pad(v) == Some(p[i..i + 32])
    ensures NumberAt(p, i, Abs(v))
  {
    PadIsWord(v);
  }

  lemma AddressInWord(p: Bytes, i: nat, addr: Bytes)
    requires i + 32 <= |p| && |addr| == 20 && p[i..i + 32] == AddressWord(addr)
    ensures AddressAt(p, i, addr)
  {
    AddressWordLayout(addr);
    assert p[i + 12..i + 32] == p[i..i + 32][12..];
    assert forall j :: i <= j < i + 12 ==> p[j] == p[i..i + 32][j - i];
  }

  lemma BytesInWord(p: Bytes, i: nat, decoded: Option<Bytes>)
    requires i + 32 <= |p| && p[i..i + 32] == Bytes32Pad(decoded)
    ensures BytesAt(p, i, decoded)
  {
    Bytes32PadLayout(decoded);
    var w := p[i..i + 32];
    var n := if decoded.Some? && |decoded.value| <= 32 then |decoded.value| else 0;
    assert p[i + 32 - n..i + 32] == w[32 - n..];
    assert forall j :: i <= j < i + 32 ==> p[j] == w[j - i];
  }

  /** sideToUint is 1 for SELL in any spelling of its letters and 0 for everything else. */
  lemma SideCodeIff(side: string)
    ensures SideCode(side) == if SameIgnoringCase(side, "SELL") then 1 else 0
  {
    UpperIsWord(side, "SELL");
  }

  /** The layout of the struct preimage: after the type hash the eleven fields, each in its 32 bytes, in the
      order of the Order type. */
  lemma OrderPreimageLayout(typeHash: Bytes, o: Order, p: Bytes)
    requires |typeHash| == 32 && Addresses(o) && OrderPreimage(typeHash, o) == Some(p)
    ensures |p| == 384 && p[..32] == typeHash
    ensures NumberAt(p, 32, Abs(o.salt))
    ensures AddressAt(p, 64, o.maker)
    ensures AddressAt(p, 96, o.signer)
    ensures NumberAt(p, 128, Abs(o.tokenId))
    ensures NumberAt(p, 160, Abs(o.makerAmount))
    ensures NumberAt(p, 192, Abs(o.takerAmount))
    ensures NumberAt(p, 224, if SameIgnoringCase(o.side, "SELL") then 1 else 0)
    ensures NumberAt(p, 256, o.signatureType)
    ensures NumberAt(p, 288, Abs(o.timestamp))
    ensures BytesAt(p, 320, o.metadata)
    ensures BytesAt(p, 352, o.builder)
  {
    OrderWordsAreWords(typeHash, o);
    var words := OrderWords(typeHash, o);
    SlicesOfTwelve(words, p);
    SideCodeIff(o.side);
    NumberWord(p, 32, o.salt);
    AddressInWord(p, 64, o.maker);
    AddressInWord(p, 96, o.signer);
    NumberWord(p, 128, o.tokenId);
    NumberWord(p, 160, o.makerAmount);
    NumberWord(p, 192, o.takerAmount);
    NumberWord(p, 224, SideCode(o.side));
    NumberWord(p, 256, o.signatureType);
    NumberWord(p, 288, o.timestamp);
    BytesInWord(p, 320, o.metadata);
    BytesInWord(p, 352, o.builder);
  }

  lemma SlicesOfTwelve(words: seq<Bytes>, p: Bytes)
    requires AllWords(words) && |words| == 12 && p == Concat(words)
    ensures |p| == 384 && p[0..32] == words[0] && p[32..64] == words[1] && p[64..96] == words[2]
    ensures p[96..128] == words[3] && p[128..160] == words[4] && p[160..192] == words[5]
    ensures p[192..224] == words[6] && p[224..256] == words[7] && p[256..288] == words[8]
    ensures p[288..320] == words[9] && p[320..352] == words[10] && p[352..384] == words[11]
  {
    forall i | 0 <= i < 12 ensures |p| == 384 && p[32 * i..32 * i + 32] == words[i] {
      ConcatSlice(words, i);
    }
    assert p[32 * 0..32 * 0 + 32] == words[0] && p[32 * 1..32 * 1 + 32] == words[1];
    assert p[32 * 2..32 * 2 + 32] == words[2] && p[32 * 3..32 * 3 + 32] == words[3];
    assert p[32 * 4..32 * 4 + 32] == words[4] && p[32 * 5..32 * 5 + 32] == words[5];
    assert p[32 * 6..32 * 6 + 32] == words[6] && p[32 * 7..32 * 7 + 32] == words[7];
    assert p[32 * 8..32 * 8 + 32] == words[8] && p[32 * 9..32 * 9 + 32] == words[9];
    assert p[32 * 10..32 * 10 + 32] == words[10] && p[32 * 11..32 * 11 + 32] == words[11];
  }

  // ---------------------------------------------------------------- the type string

  datatype Field = Field(name: string, kind: string)

  function FieldText(f: Field): string { f.kind + " " + f.name }

  function FieldList(fields: seq<Field>): string {
    if fields == [] then ""
    else if |fields| == 1 then FieldText(fields[0])
    else FieldList(fields[..|fields| - 1]) + "," + FieldText(fields[|fields| - 1])
  }

  function TypeString(primary: string, fields: seq<Field>): string {
    primary + "(" + (FieldList(fields) + ")")
  }

  method TypeEncoding(primary: string, fields: seq<Field>) returns (s: string)
    ensures s == TypeString(primary, fields)
  {
    var body := "";
    for i := 0 to |fields|
      invariant body == FieldList(fields[..i])
    {
      assert fields[..i + 1][..i] == fields[..i];
      if i > 0 {
        body := body + ",";
      }
      body := body + fields[i].kind + " " + fields[i].name;
    }
    assert fields[..|fields|] == fields;
    s := primary + "(" + (body + ")");
  }

  /** Each further field is written after a comma, its type before its name. */
  lemma {:induction false} ListEndsWith(fields: seq<Field>, f: Field)
    ensures FieldList(fields + [f]) ==
              if fields == [] then f.kind + " " + f.name else FieldList(fields) + "," + f.kind + " " + f.name
  {
    assert (fields + [f])[..|fields|] == fields;
    if fields != [] {
      assert FieldList(fields) + "," + (f.kind + " " + f.name) == FieldList(fields) + "," + f.kind + " " + f.name;
    }
  }

  /** The parentheses go around the list, which starts with its first field. */
  lemma TypeStringFrame(primary: string, fields: seq<Field>, f: Field)
    ensures TypeString(primary, fields) == primary + "(" + FieldList(fields) + ")"
    ensures FieldList([]) == "" && FieldList([f]) == f.kind + " " + f.name
  {
  }

  /** Identifiers, as Solidity names and types are: no separator inside. */
  predicate Plain(f: Field) {
    ' ' !in f.kind + f.name && ',' !in f.kind + f.name
  }

  predicate AllPlain(fields: seq<Field>) {
    forall i :: 0 <= i < |fields| ==> Plain(fields[i])
  }

  lemma FieldTextInjective(f: Field, g: Field)
    requires Plain(f) && Plain(g)
    ensures ',' !in FieldText(f) && FieldText(f) != ""
    ensures FieldText(f) == FieldText(g) ==> f == g
  {
    if FieldText(f) == FieldText(g) {
      FirstSplits(f.kind, f.name, g.kind, g.name, ' ');
    }
  }

  lemma ListHasComma(fields: seq<Field>)
    requires |fields| >= 2
    ensures ',' in FieldList(fields)
  {
    assert FieldList(fields)[|FieldList(fields[..|fields| - 1])|] == ',';
  }

  /** Two lists with the same text end in the same field, and what comes before has the same text. */
  lemma LastFieldInjective(a: seq<Field>, f: Field, b: seq<Field>, g: Field)
    requires a != [] && b != [] && Plain(f) && Plain(g)
    requires FieldList(a) + "," + FieldText(f) == FieldList(b) + "," + FieldText(g)
    ensures FieldList(a) == FieldList(b) && f == g
  {
    FieldTextInjective(f, g);
    FieldTextInjective(g, f);
    LastSplits(FieldList(a), FieldText(f), FieldList(b), FieldText(g), ',');
  }

  /** A list of one field is told from longer ones by its missing comma. */
  lemma SingleFieldInjective(f: Field, b: seq<Field>)
    requires Plain(f) && AllPlain(b) && FieldList(b) == FieldText(f)
    ensures b == [f]
  {
    FieldTextInjective(f, f);
    if |b| >= 2 {
      ListHasComma(b);
    } else if |b| == 1 {
      FieldTextInjective(f, b[0]);
    }
  }

  lemma {:induction false} FieldListInjective(a: seq<Field>, b: seq<Field>)
    requires AllPlain(a) && AllPlain(b) && FieldList(a) == FieldList(b)
    ensures a == b
  {
    if a == [] || b == [] {
      if a != [] {
        NonEmptyList(a);
      } else if b != [] {
        NonEmptyList(b);
      }
    } else if |a| == 1 {
      SingleFieldInjective(a[0], b);
    } else if |b| == 1 {
      SingleFieldInjective(b[0], a);
    } else {
      var a0, b0 := a[..|a| - 1], b[..|b| - 1];
      LastFieldInjective(a0, a[|a| - 1], b0, b[|b| - 1]);
      FieldListInjective(a0, b0);
      assert a == a0 + [a[|a| - 1]] && b == b0 + [b[|b| - 1]];
    }
  }

  lemma NonEmptyList(fields: seq<Field>)
    requires fields != []
    ensures FieldList(fields) != ""
  {
  }

  /** Different struct types have different type strings, so the type hash tells them apart. */
  lemma TypeStringInjective(p: string, a: seq<Field>, q: string, b: seq<Field>)
    requires '(' !in p && '(' !in q && AllPlain(a) && AllPlain(b)
    ensures TypeString(p, a) == TypeString(q, b) <==> p == q && a == b
  {
    if TypeString(p, a) == TypeString(q, b) {
      FirstSplits(p, FieldList(a) + ")", q, FieldList(b) + ")", '(');
      assert (FieldList(a) + ")")[..|FieldList(a)|] == FieldList(a);
      assert (FieldList(b) + ")")[..|FieldList(b)|] == FieldList(b);
      FieldListInjective(a, b);
    }
  }

  // ---------------------------------------------------------------- domain and final hash

  function DomainWords(typeHash: Bytes, nameHash: Bytes, versionHash: Bytes, contract: Bytes): seq<Bytes>
    requires |contract| == 20
  {
    [typeHash, nameHash, versionHash, Zeros(31) + [CHAIN_ID], AddressWord(contract)]
  }

  lemma ChainIdWord()
    ensures Uint256Pad(CHAIN_ID) == Some(Zeros(31) + [CHAIN_ID])
  {
    assert CHAIN_ID / 256 == 0;
    assert BigEndian(CHAIN_ID) == [CHAIN_ID];
  }

  /** The type and text hashes the signer computes on the way; all are hashes of constants. */
  datatype Constants = Constants(domainType: Bytes, name: Bytes, version: Bytes, orderType: Bytes) {
    predicate Valid() {
      |domainType| == 32 && |name| == 32 && |version| == 32 && |orderType| == 32
    }
  }

  function DomainPreimage(k: Constants, contract: Bytes): Bytes
    requires |contract| == 20
  {
    Concat(DomainWords(k.domainType, k.name, k.version, contract))
  }

  /** 0x19 0x01, the domain separator, the struct hash. */
  function FinalPreimage(h: Hash, k: Constants, contract: Bytes, o: Order): Bytes
    requires |contract| == 20 && Addresses(o) && Paddable(o)
  {
    [0x19, 0x01] + h(DomainPreimage(k, contract)) + h(Concat(OrderWords(k.orderType, o)))
  }

  /** The five domain words: type, name and version hashes, chain id 137, exchange contract. */
  lemma DomainPreimageLayout(k: Constants, contract: Bytes)
    requires k.Valid() && |contract| == 20
    ensures var p := DomainPreimage(k, contract);
            && |p| == 160 && p[..32] == k.domainType && p[32..64] == k.name && p[64..96] == k.version
            && NumberAt(p, 96, 137) && AddressAt(p, 128, contract)
  {
    var words := DomainWords(k.domainType, k.name, k.version, contract);
    var p := DomainPreimage(k, contract);
    AddressWordLayout(contract);
    forall i | 0 <= i < 5 ensures |p| == 160 && p[32 * i..32 * i + 32] == words[i] {
      ConcatSlice(words, i);
    }
    assert p[32 * 0..32 * 0 + 32] == words[0] && p[32 * 1..32 * 1 + 32] == words[1];
    assert p[32 * 2..32 * 2 + 32] == words[2] && p[32 * 3..32 * 3 + 32] == words[3];
    assert p[32 * 4..32 * 4 + 32] == words[4];
    ChainIdWord();
    NumberWord(p, 96, CHAIN_ID);
    AddressInWord(p, 128, contract);
  }

  /** What is hashed last: the two marker bytes, the domain separator, the struct hash. */
  lemma FinalPreimageLayout(h: Hash, k: Constants, contract: Bytes, o: Order)
    requires |contract| == 20 && Addresses(o) && Paddable(o) && forall x: Bytes :: |h(x)| == 32
    ensures var p := FinalPreimage(h, k, contract, o);
            && |p| == 66 && p[..2] == [0x19, 0x01] && p[2..34] == h(DomainPreimage(k, contract))
            && p[34..] == h(OrderPreimage(k.orderType, o).value)
  {
  }

  predicate NoCollision(h: Hash, x: Bytes, y: Bytes) {
    h(x) == h(y) ==> x == y
  }

  lemma DomainInjective(k: Constants, c: Bytes, d: Bytes)
    requires k.Valid() && |c| == |d| == 20
    requires DomainPreimage(k, c) == DomainPreimage(k, d)
    ensures c == d
  {
    AddressWordInjective(c, d);
    var x, y := DomainWords(k.domainType, k.name, k.version, c), DomainWords(k.domainType, k.name, k.version, d);
    ConcatInjective(x, y);
    assert x[4] == y[4];
  }

  /** A signature binds the order and the exchange contract: unless the hash collides on one of the three
      pairs involved, equal digests mean equal contracts and equal signed values. */
  lemma DigestBindsOrder(h: Hash, k: Constants, c: Bytes, d: Bytes, a: Order, b: Order)
    requires k.Valid() && |c| == |d| == 20 && Addresses(a) && Addresses(b)
    requires forall x: Bytes :: |h(x)| == 32
    requires Paddable(a) && Paddable(b)
    requires NoCollision(h, FinalPreimage(h, k, c, a), FinalPreimage(h, k, d, b))
    requires NoCollision(h, DomainPreimage(k, c), DomainPreimage(k, d))
    requires NoCollision(h, Concat(OrderWords(k.orderType, a)), Concat(OrderWords(k.orderType, b)))
    ensures h(FinalPreimage(h, k, c, a)) == h(FinalPreimage(h, k, d, b)) <==> c == d && SameSigned(a, b)
  {
    var x, y := FinalPreimage(h, k, c, a), FinalPreimage(h, k, d, b);
    OrderPreimageInjective(k.orderType, a, b);
    if h(x) == h(y) {
      assert x[2..34] == h(DomainPreimage(k, c)) && y[2..34] == h(DomainPreimage(k, d));
      assert x[34..] == h(Concat(OrderWords(k.orderType, a))) && y[34..] == h(Concat(OrderWords(k.orderType, b)));
      DomainInjective(k, c, d);
    }
  }

  // ---------------------------------------------------------------- the relayer

  datatype RelayTx = RelayTx(
    from: Bytes, to: Bytes, data: Bytes, txFee: int, gasPrice: int, gasLimit: int, nonce: int,
    relayHub: Bytes, relay: Bytes)

  /** "rlx:" */
  const RELAY_PREFIX: Bytes := [0x72, 0x6c, 0x78, 0x3a]

  predicate TxAddresses(t: RelayTx) {
    |t.from| == |t.to| == |t.relayHub| == |t.relay| == 20
  }

  predicate PaddableTx(t: RelayTx) {
    && Uint256Pad(t.txFee).Some? && Uint256Pad(t.gasPrice).Some?
    && Uint256Pad(t.gasLimit).Some? && Uint256Pad(t.nonce).Some?
  }

  /** The fixed parts before and after the variable-length data. */
  function RelayHead(t: RelayTx): Bytes {
    RELAY_PREFIX + t.from + t.to
  }

  function RelayNumbers(t: RelayTx): seq<Bytes>
    requires PaddableTx(t)
  {
    [Uint256Pad(t.txFee).value, Uint256Pad(t.gasPrice).value, Uint256Pad(t.gasLimit).value, Uint256Pad(t.nonce).value]
  }

  function RelayPreimage(t: RelayTx): Option<Bytes> {
    if PaddableTx(t) then Some(RelayHead(t) + t.data + Concat(RelayNumbers(t)) + t.relayHub + t.relay) else None
  }

  lemma RelayParts(t: RelayTx)
    requires TxAddresses(t) && PaddableTx(t)
    ensures |RelayHead(t)| == 44 && |Concat(RelayNumbers(t))| == 128
    ensures AllWords(RelayNumbers(t))
    ensures |RelayPreimage(t).value| == 212 + |t.data|
  {
    PadIsWord(t.txFee);
    PadIsWord(t.gasPrice);
    PadIsWord(t.gasLimit);
    PadIsWord(t.nonce);
    ConcatLength(RelayNumbers(t));
  }

  /** Reading the pieces back, given where the data ends. */
  lemma RelaySlices(t: RelayTx, p: Bytes, n: nat)
    requires TxAddresses(t) && RelayPreimage(t) == Some(p) && n == |t.data|
    ensures |p| == 212 + n
    ensures p[4..24] == t.from && p[24..44] == t.to && p[44..44 + n] == t.data
    ensures p[44 + n..172 + n] == Concat(RelayNumbers(t))
    ensures p[172 + n..192 + n] == t.relayHub && p[192 + n..] == t.relay
  {
    RelayParts(t);
  }

  /** The layout of the relayer's preimage around n bytes of data. */
  lemma RelayPreimageLayout(t: RelayTx, p: Bytes)
    requires TxAddresses(t) && RelayPreimage(t) == Some(p)
    ensures var n := |t.data|;
            && |p| == 212 + n && p[..4] == [0x72, 0x6c, 0x78, 0x3a] && p[4..24] == t.from && p[24..44] == t.to
            && p[44..44 + n] == t.data
            && NumberAt(p, 44 + n, Abs(t.txFee)) && NumberAt(p, 76 + n, Abs(t.gasPrice))
            && NumberAt(p, 108 + n, Abs(t.gasLimit)) && NumberAt(p, 140 + n, Abs(t.nonce))
            && p[172 + n..192 + n] == t.relayHub && p[192 + n..] == t.relay
  {
    var n, words := |t.data|, RelayNumbers(t);
    RelayParts(t);
    RelaySlices(t, p, n);
    assert p[..4] == RELAY_PREFIX;
    var q := p[44 + n..172 + n];
    forall i | 0 <= i < 4 ensures p[44 + n + 32 * i..44 + n + 32 * i + 32] == words[i] {
      ConcatSlice(words, i);
      assert q[32 * i..32 * i + 32] == p[44 + n + 32 * i..44 + n + 32 * i + 32];
    }
    assert p[44 + n + 32 * 0..44 + n + 32 * 0 + 32] == words[0];
    assert p[44 + n + 32 * 1..44 + n + 32 * 1 + 32] == words[1];
    assert p[44 + n + 32 * 2..44 + n + 32 * 2 + 32] == words[2];
    assert p[44 + n + 32 * 3..44 + n + 32 * 3 + 32] == words[3];
    NumberWord(p, 44 + n, t.txFee);
    NumberWord(p, 76 + n, t.gasPrice);
    NumberWord(p, 108 + n, t.gasLimit);
    NumberWord(p, 140 + n, t.nonce);
  }

  /** Two transactions are signed alike: the same addresses and data, the numbers up to their sign. */
  predicate SameRelayed(a: RelayTx, b: RelayTx) {
    && a.from == b.from && a.to == b.to && a.data == b.data && a.relayHub == b.relayHub && a.relay == b.relay
    && Abs(a.txFee) == Abs(b.txFee) && Abs(a.gasPrice) == Abs(b.gasPrice)
    && Abs(a.gasLimit) == Abs(b.gasLimit) && Abs(a.nonce) == Abs(b.nonce)
  }

  lemma RelayNumbersEqualIff(a: RelayTx, b: RelayTx)
    requires PaddableTx(a) && PaddableTx(b)
    ensures RelayNumbers(a) == RelayNumbers(b) <==>
              && Abs(a.txFee) == Abs(b.txFee) && Abs(a.gasPrice) == Abs(b.gasPrice)
              && Abs(a.gasLimit) == Abs(b.gasLimit) && Abs(a.nonce) == Abs(b.nonce)
  {
    PadInjectiveIff(a.txFee, b.txFee);
    PadInjectiveIff(a.gasPrice, b.gasPrice);
    PadInjectiveIff(a.gasLimit, b.gasLimit);
    PadInjectiveIff(a.nonce, b.nonce);
    var x, y := RelayNumbers(a), RelayNumbers(b);
    if x == y {
      assert x[0] == y[0] && x[1] == y[1] && x[2] == y[2] && x[3] == y[3];
    }
  }

  /** The relayer's preimage is injective although nothing marks where its data ends: every other part has a
      fixed length, 212 bytes in all. */
  lemma RelayPreimageInjective(a: RelayTx, b: RelayTx)
    requires TxAddresses(a) && TxAddresses(b) && PaddableTx(a) && PaddableTx(b)
    ensures RelayPreimage(a) == RelayPreimage(b) <==> SameRelayed(a, b)
  {
    RelayParts(a);
    RelayParts(b);
    RelayNumbersEqualIff(a, b);
    if RelayPreimage(a) == RelayPreimage(b) {
      var p := RelayPreimage(a).value;
      RelaySlices(a, p, |a.data|);
      RelaySlices(b, p, |b.data|);
      ConcatInjective(RelayNumbers(a), RelayNumbers(b));
    }
  }
}

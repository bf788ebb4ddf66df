/** The independent verifier of a witness bundle: the key, the hash chain, the signatures, and what
    the bundle says about itself. */
module WitnessBundle {
  import opened Wrappers

  // What a receipt's hash covers: its content and the previous hash it names. Neither its own hash nor
  // its signature fields are covered.
  datatype Payload<+C> = Payload(content: C, prev: Option<string>)

  datatype Receipt<+C> = Receipt(
    payload: Payload<C>, chainHash: Option<string>, signature: Option<string>, keyId: Option<string>)

  // The hash of a previous hash and a payload, the id of a public key (none: not base64), and whether a
  // signature of a hash verifies under a public key.
  datatype Crypto<!C> = Crypto(
    digest: (string, Payload<C>) -> string,
    keyIdFor: string -> Option<string>,
    verifies: (string, string, string) -> bool)

  ghost predicate Injective<C(!new)>(crypto: Crypto<C>) {
    forall p, a, q, b :: crypto.digest(p, a) == crypto.digest(q, b) ==> p == q && a == b
  }

  // A value the bundle gives for a count or a flag.
  datatype Json = Null | Bool(b: bool) | Int(n: int) | Float(x: real) | Other

  /** Python's ==, for which true is 1 and 1.0 is 1. */
  predicate EqualsInt(value: Json, n: int) {
    match value
    case Bool(b) => (if b then 1 else 0) == n
    case Int(m) => m == n
    case Float(x) => x == n as real
    case _ => false
  }

  datatype Bundle<+C> = Bundle(
    receipts: seq<Receipt<C>>, publicKey: Option<string>, signingKeyId: Option<string>, headHash: Option<string>,
    receiptCount: Option<Json>, unparseableLines: Option<Json>, chainValidAtExport: Option<Json>)

  datatype Expected = Expected(allowUnsigned: bool, keyId: Option<string>, head: Option<string>)

  datatype Failure =
    | KeyNotBase64 | KeyNotTheOneNamed | KeyNotExpected
    | ContentAltered(at: nat) | ChainBroken(at: nat) | SignatureRemoved(at: nat) | NoKey(at: nat) | OtherKey(at: nat)
    | BadSignature(at: nat)
    | HeadMissing | CountWrong | LinesSkipped | InvalidAtExport | HeadNotExpected | NothingSigned | NoReceipts

  predicate Truthy(value: Option<string>) {
    value.Some? && value.value != ""
  }

  function PrevText(prev: Option<string>): string {
    if prev.Some? then prev.value else ""
  }

  function CanonicalHash<C>(crypto: Crypto<C>, receipt: Receipt<C>): string {
    crypto.digest(PrevText(receipt.payload.prev), receipt.payload)
  }

  function KeyId<C>(crypto: Crypto<C>, bundle: Bundle<C>): Option<string> {
    if Truthy(bundle.publicKey) then crypto.keyIdFor(bundle.publicKey.value) else None
  }

  function Head<C>(receipts: seq<Receipt<C>>): Option<string> {
    if receipts == [] then None else receipts[|receipts| - 1].chainHash
  }

  // ---- What a pass means --------------------------------------------------------------------------------

  /** The receipt's hash is its content's, and it names its predecessor's. */
  predicate LinkHolds<C(==)>(crypto: Crypto<C>, receipts: seq<Receipt<C>>, i: nat)
    requires i < |receipts|
  {
    && receipts[i].chainHash == Some(CanonicalHash(crypto, receipts[i]))
    && receipts[i].payload.prev == Head(receipts[..i])
  }

  predicate LinksHold<C(==)>(crypto: Crypto<C>, receipts: seq<Receipt<C>>) {
    forall i | 0 <= i < |receipts| :: LinkHolds(crypto, receipts, i)
  }

  predicate IsSigned<C>(receipt: Receipt<C>) {
    Truthy(receipt.signature)
  }

  predicate SignatureHolds<C>(crypto: Crypto<C>, publicKey: Option<string>, keyId: Option<string>, receipt: Receipt<C>) {
    && Truthy(publicKey)
    && (Truthy(receipt.keyId) ==> receipt.keyId == keyId)
    && receipt.chainHash.Some? && receipt.signature.Some?
    && crypto.verifies(publicKey.value, receipt.chainHash.value, receipt.signature.value)
  }

  predicate SignaturesHold<C>(crypto: Crypto<C>, publicKey: Option<string>, keyId: Option<string>, receipts: seq<Receipt<C>>) {
    forall i | 0 <= i < |receipts| :: IsSigned(receipts[i]) ==> SignatureHolds(crypto, publicKey, keyId, receipts[i])
  }

  /** Nothing unsigned follows a signed receipt. */
  predicate SignedToTheEnd<C>(receipts: seq<Receipt<C>>) {
    forall i, j | 0 <= i < j < |receipts| :: IsSigned(receipts[i]) ==> IsSigned(receipts[j])
  }

  predicate ChainPasses<C(==)>(crypto: Crypto<C>, publicKey: Option<string>, keyId: Option<string>, receipts: seq<Receipt<C>>) {
    && LinksHold(crypto, receipts)
    && SignedToTheEnd(receipts)
    && SignaturesHold(crypto, publicKey, keyId, receipts)
  }

  predicate KeyPasses<C>(crypto: Crypto<C>, bundle: Bundle<C>, expected: Expected) {
    var keyId := KeyId(crypto, bundle);
    && (Truthy(bundle.publicKey) ==> keyId.Some?)
    && (Truthy(keyId) && Truthy(bundle.signingKeyId) ==> bundle.signingKeyId == keyId)
    && (Truthy(expected.keyId) ==> keyId == expected.keyId)
  }

  predicate FieldsPass<C>(bundle: Bundle<C>, expected: Expected) {
    && bundle.headHash == Head(bundle.receipts)
    && (bundle.receiptCount.Some? ==> EqualsInt(bundle.receiptCount.value, |bundle.receipts|))
    && (bundle.unparseableLines.Some? ==> bundle.unparseableLines.value == Int(0))
    && (bundle.chainValidAtExport.Some? ==> bundle.chainValidAtExport.value == Bool(true))
    && (Truthy(expected.head) ==> Head(bundle.receipts) == expected.head)
  }

  /** The bundles that verify. */
  predicate Accepted<C(==)>(crypto: Crypto<C>, bundle: Bundle<C>, expected: Expected) {
    && bundle.receipts != []
    && KeyPasses(crypto, bundle, expected)
    && ChainPasses(crypto, bundle.publicKey, KeyId(crypto, bundle), bundle.receipts)
    && FieldsPass(bundle, expected)
    && (expected.allowUnsigned || IsSigned(bundle.receipts[|bundle.receipts| - 1]))
  }

  // ---- The verifier ---------------------------------------------------------------------------------------

  method CheckKey<C>(crypto: Crypto<C>, bundle: Bundle<C>, expectedKeyId: Option<string>)
    returns (keyId: Option<string>, failures: seq<Failure>)
    ensures keyId == KeyId(crypto, bundle)
    ensures failures == [] <==> KeyPasses(crypto, bundle, Expected(false, expectedKeyId, None))
  {
    keyId, failures := None, [];
    if Truthy(bundle.publicKey) {
      keyId := crypto.keyIdFor(bundle.publicKey.value);
      if keyId.None? {
        failures := failures + [KeyNotBase64];
      }
    }
    if Truthy(keyId) && Truthy(bundle.signingKeyId) && bundle.signingKeyId != keyId {
      failures := failures + [KeyNotTheOneNamed];
    }
    if Truthy(expectedKeyId) && keyId != expectedKeyId {
      failures := failures + [KeyNotExpected];
    }
  }

  /** Walk the chain up to its first fault, counting the signed and the unsigned receipts before it. With no
      fault the counts cover every receipt, the unsigned ones first. */
  method CheckChain<C(==)>(crypto: Crypto<C>, receipts: seq<Receipt<C>>, publicKey: Option<string>, keyId: Option<string>)
    returns (signed: nat, unsigned: nat, failures: seq<Failure>)
    ensures failures == [] <==> ChainPasses(crypto, publicKey, keyId, receipts)
    ensures signed + unsigned <= |receipts| && |failures| <= 1
    ensures forall i | 0 <= i < signed + unsigned :: IsSigned(receipts[i]) <==> i >= unsigned
    ensures failures == [] <==> signed + unsigned == |receipts|
  {
    signed, unsigned, failures := 0, 0, [];
    var previous: Option<string> := None;
    for i := 0 to |receipts|
      invariant signed + unsigned == i
      invariant previous == Head(receipts[..i])
      invariant forall k | 0 <= k < i :: IsSigned(receipts[k]) <==> k >= unsigned
      invariant forall k | 0 <= k < i :: LinkHolds(crypto, receipts, k)
      invariant forall k | 0 <= k < i :: IsSigned(receipts[k]) ==> SignatureHolds(crypto, publicKey, keyId, receipts[k])
    {
      var receipt := receipts[i];
      if Some(CanonicalHash(crypto, receipt)) != receipt.chainHash {
        assert !LinkHolds(crypto, receipts, i);
        return signed, unsigned, [ContentAltered(i)];
      }
      if receipt.payload.prev != previous {
        assert !LinkHolds(crypto, receipts, i);
        return signed, unsigned, [ChainBroken(i)];
      }
      if !Truthy(receipt.signature) {
        if signed > 0 {
          assert IsSigned(receipts[unsigned]) && !IsSigned(receipts[i]);
          return signed, unsigned, [SignatureRemoved(i)];
        }
        unsigned := unsigned + 1;
      } else if !Truthy(publicKey) {
        assert IsSigned(receipts[i]);
        return signed, unsigned, [NoKey(i)];
      } else if Truthy(receipt.keyId) && receipt.keyId != keyId {
        assert IsSigned(receipts[i]);
        return signed, unsigned, [OtherKey(i)];
      } else if !crypto.verifies(publicKey.value, receipt.chainHash.value, receipt.signature.value) {
        assert IsSigned(receipts[i]);
        return signed, unsigned, [BadSignature(i)];
      } else {
        signed := signed + 1;
      }
      previous := receipt.chainHash;
      assert receipts[..i + 1][|receipts[..i + 1]| - 1] == receipt;
    }
  }

  method VerifyBundle<C(==)>(crypto: Crypto<C>, bundle: Bundle<C>, expected: Expected)
    returns (ok: bool, failures: seq<Failure>, signed: nat, unsigned: nat)
    ensures ok <==> Accepted(crypto, bundle, expected)
    ensures ok <==> failures == []
    ensures ok ==> signed + unsigned == |bundle.receipts|
    ensures ok ==> forall i | 0 <= i < |bundle.receipts| :: IsSigned(bundle.receipts[i]) <==> i >= unsigned
    ensures ok && !expected.allowUnsigned ==> signed > 0
  {
    var keyId, chainFailures;
    keyId, failures := CheckKey(crypto, bundle, expected.keyId);
    signed, unsigned, chainFailures := CheckChain(crypto, bundle.receipts, bundle.publicKey, keyId);
    failures := failures + chainFailures;
    var head := Head(bundle.receipts);
    if bundle.headHash != head {
      failures := failures + [HeadMissing];
    }
    if bundle.receiptCount.Some? && !EqualsInt(bundle.receiptCount.value, |bundle.receipts|) {
      failures := failures + [CountWrong];
    }
    if bundle.unparseableLines.Some? && bundle.unparseableLines.value != Int(0) {
      failures := failures + [LinesSkipped];
    }
    if bundle.chainValidAtExport.Some? && bundle.chainValidAtExport.value != Bool(true) {
      failures := failures + [InvalidAtExport];
    }
    if Truthy(expected.head) && head != expected.head {
      failures := failures + [HeadNotExpected];
    }
    if bundle.receipts != [] && signed == 0 && !expected.allowUnsigned {
      failures := failures + [NothingSigned];
    }
    if bundle.receipts == [] {
      failures := failures + [NoReceipts];
    }
    ok := failures == [];
  }

  // ---- Tamper evidence --------------------------------------------------------------------------------------

  /** Two chains whose links hold and that end at the same hash hold the same content at every place. */
  lemma {:induction false} SameHeadSameChain<C(!new)>(crypto: Crypto<C>, a: seq<Receipt<C>>, b: seq<Receipt<C>>)
    requires Injective(crypto) && LinksHold(crypto, a) && LinksHold(crypto, b)
    requires Head(a) == Head(b)
    ensures |a| == |b|
    ensures forall i | 0 <= i < |a| :: a[i].payload == b[i].payload && a[i].chainHash == b[i].chainHash
    decreases |a|
  {
    if a == [] {
      assert b == [] || LinkHolds(crypto, b, |b| - 1);
    } else {
      assert LinkHolds(crypto, a, |a| - 1);
      assert b == [] || LinkHolds(crypto, b, |b| - 1);
      var a', b' := a[..|a| - 1], b[..|b| - 1];
      LinksHoldBefore(crypto, a, |a| - 1);
      LinksHoldBefore(crypto, b, |b| - 1);
      SameHeadSameChain(crypto, a', b');
      forall i | 0 <= i < |a| ensures a[i].payload == b[i].payload && a[i].chainHash == b[i].chainHash {
        if i < |a| - 1 {
          assert a'[i] == a[i] && b'[i] == b[i];
        }
      }
    }
  }

  lemma LinksHoldBefore<C>(crypto: Crypto<C>, receipts: seq<Receipt<C>>, n: nat)
    requires n <= |receipts| && LinksHold(crypto, receipts)
    ensures LinksHold(crypto, receipts[..n])
  {
    forall i | 0 <= i < n ensures LinkHolds(crypto, receipts[..n], i) {
      assert LinkHolds(crypto, receipts, i);
      assert receipts[..n][..i] == receipts[..i];
    }
  }

  /** So an edit, an insertion, a deletion or a reordering of a chain that keeps its head is rejected. */
  lemma TamperedBundleIsRejected<C(!new)>(crypto: Crypto<C>, original: Bundle<C>, tampered: Bundle<C>, expected: Expected, theirs: Expected)
    requires Injective(crypto) && Accepted(crypto, original, expected)
    requires Head(tampered.receipts) == Head(original.receipts)
    requires
      || |tampered.receipts| != |original.receipts|
      || exists i | 0 <= i < |original.receipts| :: tampered.receipts[i].payload != original.receipts[i].payload
    ensures !Accepted(crypto, tampered, theirs)
  {
    if LinksHold(crypto, tampered.receipts) {
      SameHeadSameChain(crypto, tampered.receipts, original.receipts);
    }
  }

  /** Dropping receipts off the end is the one change that leaves a chain whose links hold, and its head
      moves: a verifier that is told the head rejects it. */
  lemma TruncationMovesTheHead<C(!new)>(crypto: Crypto<C>, receipts: seq<Receipt<C>>, n: nat)
    requires Injective(crypto) && LinksHold(crypto, receipts) && n < |receipts|
    ensures LinksHold(crypto, receipts[..n]) && Head(receipts[..n]) != Head(receipts)
  {
    LinksHoldBefore(crypto, receipts, n);
    if Head(receipts[..n]) == Head(receipts) {
      SameHeadSameChain(crypto, receipts[..n], receipts);
    }
  }

  // ---- What a pass vouches for --------------------------------------------------------------------------------

  /** An accepted bundle with an expected key: every hash is that of its receipt's content and of the hash before it,
      the last receipt is signed under that key, and so is every one from the first signed on; the count, if there is
      one, is right, and the chain ends at the expected head. */
  lemma AcceptedIsVouchedFor<C>(crypto: Crypto<C>, bundle: Bundle<C>, head: Option<string>, key: string)
    requires key != "" && Accepted(crypto, bundle, Expected(false, Some(key), head))
    ensures bundle.publicKey.Some? && crypto.keyIdFor(bundle.publicKey.value) == Some(key)
    ensures forall i | 0 <= i < |bundle.receipts| ::
              var receipt := bundle.receipts[i];
              var before := receipt.payload.prev;
              && before == (if i == 0 then None else bundle.receipts[i - 1].chainHash)
              && receipt.chainHash == Some(crypto.digest(if before.Some? then before.value else "", receipt.payload))
    ensures bundle.receipts != [] && bundle.receipts[|bundle.receipts| - 1].signature.Some?
    ensures forall i, j | 0 <= i <= j < |bundle.receipts| ::
              bundle.receipts[i].signature.Some? && bundle.receipts[i].signature.value != "" ==>
                && bundle.receipts[j].signature.Some? && bundle.receipts[j].signature.value != ""
                && (bundle.receipts[j].keyId.Some? ==> bundle.receipts[j].keyId.value in {"", key})
                && bundle.receipts[j].chainHash.Some?
                && crypto.verifies(bundle.publicKey.value, bundle.receipts[j].chainHash.value, bundle.receipts[j].signature.value)
    ensures bundle.receipts[|bundle.receipts| - 1].signature.value != ""
    ensures bundle.headHash == bundle.receipts[|bundle.receipts| - 1].chainHash
    ensures head.Some? && head.value != "" ==> bundle.headHash == head
    ensures forall n :: bundle.receiptCount == Some(Int(n)) ==> n == |bundle.receipts|
  {
    forall i | 0 <= i < |bundle.receipts|
      ensures bundle.receipts[i].payload.prev == (if i == 0 then None else bundle.receipts[i - 1].chainHash)
      ensures
        var before := bundle.receipts[i].payload.prev;
        bundle.receipts[i].chainHash == Some(crypto.digest(if before.Some? then before.value else "", bundle.receipts[i].payload))
    {
      assert LinkHolds(crypto, bundle.receipts, i);
      assert i > 0 ==> bundle.receipts[..i][|bundle.receipts[..i]| - 1] == bundle.receipts[i - 1];
    }
    forall i, j | 0 <= i <= j < |bundle.receipts| && IsSigned(bundle.receipts[i]) ensures IsSigned(bundle.receipts[j]) {
    }
  }

  // ---- What is recorded is accepted ---------------------------------------------------------------------------

  // Signs under a key: its public half, that key's id, and the signature of a hash.
  datatype Signer = Signer(publicKey: string, keyId: string, sign: string -> string)

  ghost predicate SignsTruly<C(!new)>(crypto: Crypto<C>, signer: Signer) {
    && signer.publicKey != "" && signer.keyId != "" && crypto.keyIdFor(signer.publicKey) == Some(signer.keyId)
    && forall hash :: signer.sign(hash) != "" && crypto.verifies(signer.publicKey, hash, signer.sign(hash))
  }

  /** The recorder's append: the receipt names the last one's hash and is hashed with it, and then signed if there is
      somebody to sign it. */
  function Appended<C>(crypto: Crypto<C>, receipts: seq<Receipt<C>>, content: C, signer: Option<Signer>): seq<Receipt<C>> {
    var prev := if receipts == [] then None else receipts[|receipts| - 1].chainHash;
    var payload := Payload(content, prev);
    var hash := crypto.digest(if prev.Some? then prev.value else "", payload);
    receipts + [if signer.Some? then Receipt(payload, Some(hash), Some(signer.value.sign(hash)), Some(signer.value.keyId))
                else Receipt(payload, Some(hash), None, None)]
  }

  /** A chain whose receipts are signed from the given one on. */
  function Recorded<C>(crypto: Crypto<C>, contents: seq<C>, signer: Signer, from: nat): seq<Receipt<C>> {
    if contents == [] then []
    else
      var n := |contents| - 1;
      Appended(crypto, Recorded(crypto, contents[..n], signer, from), contents[n], if n >= from then Some(signer) else None)
  }

  function Exported<C>(receipts: seq<Receipt<C>>, signer: Signer): Bundle<C> {
    Bundle(receipts, Some(signer.publicKey), Some(signer.keyId), Head(receipts), Some(Int(|receipts|)), Some(Int(0)), Some(Bool(true)))
  }

  predicate SignedFrom<C>(crypto: Crypto<C>, receipts: seq<Receipt<C>>, signer: Signer, from: nat) {
    forall i | 0 <= i < |receipts| ::
      if i < from then !IsSigned(receipts[i])
      else IsSigned(receipts[i]) && SignatureHolds(crypto, Some(signer.publicKey), Some(signer.keyId), receipts[i])
  }

  lemma AppendKeepsLinks<C(!new)>(crypto: Crypto<C>, before: seq<Receipt<C>>, content: C, signer: Option<Signer>)
    requires LinksHold(crypto, before)
    ensures LinksHold(crypto, Appended(crypto, before, content, signer))
  {
    var receipts := Appended(crypto, before, content, signer);
    assert receipts[..|before|] == before;
    forall i | 0 <= i < |receipts| ensures LinkHolds(crypto, receipts, i) {
      if i < |before| {
        assert LinkHolds(crypto, before, i);
        assert receipts[..i] == before[..i] && receipts[i] == before[i];
      }
    }
  }

  lemma AppendKeepsSignatures<C(!new)>(crypto: Crypto<C>, before: seq<Receipt<C>>, content: C, signer: Signer, from: nat)
    requires SignsTruly(crypto, signer) && SignedFrom(crypto, before, signer, from)
    ensures SignedFrom(crypto, Appended(crypto, before, content, if |before| >= from then Some(signer) else None), signer, from)
  {
  }

  lemma {:induction false} RecordedPasses<C(!new)>(crypto: Crypto<C>, contents: seq<C>, signer: Signer, from: nat)
    requires SignsTruly(crypto, signer)
    ensures
      var receipts := Recorded(crypto, contents, signer, from);
      && |receipts| == |contents| && LinksHold(crypto, receipts) && SignedFrom(crypto, receipts, signer, from)
      && forall i | 0 <= i < |contents| :: receipts[i].payload.content == contents[i]
  {
    hide SignsTruly, LinksHold, SignedFrom;
    if contents == [] {
      NothingRecorded(crypto, signer, from);
    } else {
      var n := |contents| - 1;
      var before := Recorded(crypto, contents[..n], signer, from);
      RecordedPasses(crypto, contents[..n], signer, from);
      AppendKeepsLinks(crypto, before, contents[n], if n >= from then Some(signer) else None);
      AppendKeepsSignatures(crypto, before, contents[n], signer, from);
    }
  }

  lemma NothingRecorded<C>(crypto: Crypto<C>, signer: Signer, from: nat)
    ensures LinksHold<C>(crypto, []) && SignedFrom<C>(crypto, [], signer, from)
  {
  }

  /** Whatever was recorded, and from wherever on it was signed, its export is accepted by a reader who expects that key
      and that head or neither; if nothing at all was signed, exactly by one who allows that. */
  lemma RecordedIsAccepted<C(!new)>(crypto: Crypto<C>, contents: seq<C>, signer: Signer, from: nat, expected: Expected)
    requires SignsTruly(crypto, signer) && contents != []
    requires expected.keyId in [None, Some(signer.keyId)]
    requires expected.head in [None, Head(Recorded(crypto, contents, signer, from))]
    ensures
      Accepted(crypto, Exported(Recorded(crypto, contents, signer, from), signer), expected)
      <==> from < |contents| || expected.allowUnsigned
  {
    RecordedPasses(crypto, contents, signer, from);
  }
}

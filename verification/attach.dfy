/** Putting a signature on a transaction and checking it as the node will (`mesh/spend.rs`). The
    transaction's own bytes are not part of this model: a digest, a source hash and the three
    WOTS+ fields stand for it. */
module Attach {
  import opened Base
  import opened Primitives
  import opened Wots
  import opened WotsKeys
  import opened AdrsImage

  /** `WotsVal`: what a transaction carries of its signature. */
  datatype WotsVal = WotsVal(signature: KeyBytes, pubSeed: Block, adrs: Block)

  /** `SpendSignature`, with the address words the key was generated from. */
  datatype SpendSignature = SpendSignature(spentIndex: u32, signature: KeyBytes, pubSeed: Block, adrs: Words,
                                           publicKey: KeyBytes)

  datatype AttachError =
    | PositionMismatch(planned: u32, signed: u32)
    | PublicKeyNotRecovered
    | AddressSchemeNotRecovered
    | SourceHashNotRecovered

  function WordsOf(image: Block): Words { FromLeImage(image) }

  /** Accepted: recovery leaves the stored words as they were, and the key hashes to the source. */
  function Verified(h: Hashes, digest: Block, srcHash: Block20, wots: WotsVal): Result<(), AttachError> {
    var supplied := WordsOf(wots.adrs);
    if Terminal(supplied[..5]) != supplied then Err(AddressSchemeNotRecovered)
    else if AddrHash(h, Recovered(h, wots.signature, digest, wots.pubSeed, supplied[..5])) != srcHash then
      Err(SourceHashNotRecovered)
    else Ok(())
  }

  method VerifyWots(h: Hashes, digest: Block, srcHash: Block20, wots: WotsVal) returns (r: Result<(), AttachError>)
    ensures r == Verified(h, digest, srcHash, wots)
  {
    var working := ImageToWords(wots.adrs);
    var supplied := working[..];
    var recovered, bounds := PkFromSigCounted(h, wots.signature, digest, wots.pubSeed, working);
    if working[..] != supplied {
      return Err(AddressSchemeNotRecovered);
    }
    if AddrHash(h, recovered) != srcHash {
      return Err(SourceHashNotRecovered);
    }
    return Ok(());
  }

  method AttachSignature(h: Hashes, planned: u32, digest: Block, srcHash: Block20, sig: SpendSignature)
    returns (r: Result<WotsVal, AttachError>)
    ensures r == Attached(h, planned, digest, srcHash, sig)
  {
    if sig.spentIndex != planned {
      return Err(PositionMismatch(planned, sig.spentIndex));
    }
    var adrs := new u32[8](i requires 0 <= i < 8 => sig.adrs[i]);
    assert adrs[..] == sig.adrs;
    assert adrs[..5] == sig.adrs[..5];
    var recovered, bounds := PkFromSigCounted(h, sig.signature, digest, sig.pubSeed, adrs);
    if recovered != sig.publicKey {
      return Err(PublicKeyNotRecovered);
    }
    var image := WordsToImage(adrs);
    var wots := WotsVal(sig.signature, sig.pubSeed, image);
    var checked := VerifyWots(h, digest, srcHash, wots);
    if checked.Err? {
      return Err(checked.error);
    }
    return Ok(wots);
  }

  function Attached(h: Hashes, planned: u32, digest: Block, srcHash: Block20, sig: SpendSignature)
    : Result<WotsVal, AttachError>
  {
    if sig.spentIndex != planned then Err(PositionMismatch(planned, sig.spentIndex))
    else if Recovered(h, sig.signature, digest, sig.pubSeed, sig.adrs[..5]) != sig.publicKey then
      Err(PublicKeyNotRecovered)
    else
      var wots := WotsVal(sig.signature, sig.pubSeed, LeImage(Terminal(sig.adrs[..5])));
      match Verified(h, digest, srcHash, wots)
      case Err(e) => Err(e)
      case Ok(_) => Ok(wots)
  }

  /** The stored words are accepted exactly when words 5 to 7 are 66, 14 and 1. */
  lemma AcceptedScheme(h: Hashes, digest: Block, srcHash: Block20, wots: WotsVal)
    ensures Verified(h, digest, srcHash, wots) == Err(AddressSchemeNotRecovered)
       <==> !(WordsOf(wots.adrs)[5] == 66 && WordsOf(wots.adrs)[6] == 14 && WordsOf(wots.adrs)[7] == 1)
  {
    var words := WordsOf(wots.adrs);
    assert words == words[..5] + [words[5], words[6], words[7]];
  }

  /** A signature this wallet's own key made over the planned digest always attaches, and what is
      stored is the words recovery leaves: the self-check can only refuse a signature that the
      reserved key did not make. */
  lemma OwnSignatureAttaches(h: Hashes, position: u32, digest: Block, secret: Block, pubSeed: Block, adrs: Words)
    ensures var pk := PublicKey(h, secret, pubSeed, adrs[..5]);
            var sig := SpendSignature(position, Signature(h, digest, secret, pubSeed, adrs[..5]), pubSeed, adrs, pk);
            Attached(h, position, digest, AddrHash(h, pk), sig)
            == Ok(WotsVal(sig.signature, pubSeed, LeImage(Terminal(adrs[..5]))))
  {
    hide PublicKey, Signature, Recovered, AddrHash;
    var fixed: Fixed := adrs[..5];
    SignatureRecovers(h, secret, pubSeed, digest, fixed);
    WordsOfImage(Terminal(fixed));
    assert Terminal(fixed)[..5] == fixed;
  }

  /** Whatever attaches verifies against the source it was attached for, and a node that repeats
      the check on the stored bytes gets the same answer. */
  lemma AttachedVerifies(h: Hashes, planned: u32, digest: Block, srcHash: Block20, sig: SpendSignature)
    requires Attached(h, planned, digest, srcHash, sig).Ok?
    ensures Verified(h, digest, srcHash, Attached(h, planned, digest, srcHash, sig).value) == Ok(())
    ensures AddrHash(h, sig.publicKey) == srcHash
  {
    hide Recovered, AddrHash;
    WordsOfImage(Terminal(sig.adrs[..5]));
    assert Terminal(sig.adrs[..5])[..5] == sig.adrs[..5];
  }

  /** The key recovered from what a transaction carries hashes to its source. */
  ghost predicate RecoversTo(h: Hashes, digest: Block, srcHash: Block20, wots: WotsVal) {
    h.ripemd160(h.sha3_512(Recovered(h, wots.signature, digest, wots.pubSeed, WordsOf(wots.adrs)[..5]))) == srcHash
  }

  /** Stored words that are not those recovery leaves are refused first; then a key that does not
      hash to the source; and nothing else is. */
  lemma VerifyMeans(h: Hashes, digest: Block, srcHash: Block20, wots: WotsVal)
    ensures var r := Verified(h, digest, srcHash, wots);
            var scheme := WordsOf(wots.adrs)[5..] == [66, 14, 1];
            && (r.Ok? <==> scheme && RecoversTo(h, digest, srcHash, wots))
            && (r == Err(AddressSchemeNotRecovered) <==> !scheme)
            && (r == Err(SourceHashNotRecovered) <==> scheme && !RecoversTo(h, digest, srcHash, wots))
  {
    AcceptedScheme(h, digest, srcHash, wots);
    var words := WordsOf(wots.adrs);
    assert words[5..] == [words[5], words[6], words[7]];
    hide Recovered;
  }

  /** A signature attaches exactly when it is for the planned position, recovers to the key it names,
      and that key hashes to the source; what is attached is its own bytes, its own seed, and its own
      words with the last three as recovery leaves them. */
  lemma AttachMeans(h: Hashes, planned: u32, digest: Block, srcHash: Block20, sig: SpendSignature)
    ensures var r := Attached(h, planned, digest, srcHash, sig);
            var recovers := Recovered(h, sig.signature, digest, sig.pubSeed, sig.adrs[..5]) == sig.publicKey;
            var sourced := h.ripemd160(h.sha3_512(sig.publicKey)) == srcHash;
            && (sig.spentIndex != planned <==> r == Err(PositionMismatch(planned, sig.spentIndex)))
            && (sig.spentIndex == planned && !recovers <==> r == Err(PublicKeyNotRecovered))
            && (sig.spentIndex == planned && recovers && !sourced <==> r == Err(SourceHashNotRecovered))
            && (sig.spentIndex == planned && recovers && sourced <==> r.Ok?)
            && (r.Ok? ==> r.value.signature == sig.signature && r.value.pubSeed == sig.pubSeed
                          && WordsOf(r.value.adrs) == sig.adrs[..5] + [66, 14, 1])
  {
    hide Recovered;
    var terminal := Terminal(sig.adrs[..5]);
    WordsOfImage(terminal);
    assert terminal[..5] == sig.adrs[..5];
  }
}

# Verified model of the Mochimo command-line wallet

The wallet in this repository derives one-time keys from a seed, signs each spend with the next of
them, and keeps on disk how far it has got. Its promise is that no key ever signs two things. This
project models the parts of the code that promise rests on, and proves it, together with what the
codecs and the signature scheme promise on the way. `dafny verify dfyconfig.toml` checks everything.

## How the model is built

**Form.** Code that works by changing things step by step is imperative here too: the carry loops of
Base58, the checksum table, the chain and key loops over the eight mutable address words, the digest
generator, the keystore, the wallet, the loops over the accounts and the line reader are methods and
classes with loop invariants. Each is proved equal to a specification function, named after it
(`ReviewAsking` and `ReviewRun`, say), and the theorems are about those functions. Code that matches
and calls is functions.

What each specification function means is stated a second time without it: the `Means` lemmas say
of every outcome which slot, address and answer it stands for, and the `Readings` say of every
hashed value what went into it. Where two inputs must not collapse into one, a lemma gives hash
functions that keep them apart, by handing part of their input back.

**Hash functions** are arbitrary functions of the right width, the fields of `Primitives.Hashes`.
Every result holds whichever they are; where a result needs two positions to have different
addresses, it says so for the one position it concerns.

**The node** is a script of what it answers at each call, arbitrary at each call. **Cancellation** is
a predicate of how often it has been asked, so it may say stop exactly once; `Cancel::NEVER` is the
one that always answers no. The wrappers that count askings for a progress callback and remember a
stop are modelled around it.

**The disk** commits whole images. A commit lands, or the image cannot be sealed and nothing is
attempted, or it fails part-way leaving the old image or the new one and a handle that refuses
everything from then on. Opening again reads the disk, and receipts are gone with the handle.

**Runs** (`Safety`) are sequences of any of the operations: reopening, adding, restoring, opening the
wallet, reserving and signing, signing again, settling, reviewing, advancing on acknowledgement, and
the store's own calls with arbitrary arguments, receipts nobody was given included. Being stopped
between a commit and the signature is the store's own reservation followed by a reopening.

| file | models |
|---|---|
| `numerals.dfy`, `bits.dfy` | positional numerals, powers, bytes as bits |
| `crc16.dfy`, `base58.dfy`, `base58_lengths.dfy`, `tag_codec.dfy` | the destination-string codec |
| `wots_digits.dfy`, `wots.dfy`, `wots_keys.dfy`, `adrs_image.dfy`, `attach.dfy` | WOTS+ of section 3.1 of RFC 8391, base-w digits of its section 2.6, address words of its section 2.5, and attaching a signature |
| `generator.dfy`, `derivation.dfy`, `accounts.dfy` | key derivation, accounts, import and restore from a record |
| `readings.dfy` | what enters each hash, and where |
| `cancel.dfy`, `scan.dfy`, `store.dfy`, `recon.dfy` | stopping, scanning, the keystore's transitions, reconciliation |
| `writes.dfy`, `findings.dfy` | what a write leaves and what a finding says, over slots and answers alone |
| `opening.dfy`, `spending.dfy`, `settling.dfy` | the wallet |
| `opening_laws.dfy`, `spending_laws.dfy`, `spending_outcomes.dfy`, `settling_outcomes.dfy` | what it promises |
| `review.dfy`, `restore.dfy` | the acknowledged advance, restore and sweep |
| `review_laws.dfy`, `review_outcomes.dfy`, `restore_laws.dfy` | what they promise |
| `safety.dfy`, `running.dfy` | the whole machine, over every run |
| `line_reader.dfy` | reading one secret line |

## Model

| member | source | states |
|---|---|---|
| Crc16.BuildTable | crates/mochimo-crypto/src/backend/native.rs:836-854 | entry `i` of the generated table is the remainder of byte `i` divided bit by bit |
| Crc16.Checksum | crates/mochimo-crypto/src/backend/native.rs:858-864 | the table-driven loop computes the remainder of bit-by-bit division by 0x1021, on every input |
| Crc16.TableStep | crates/mochimo-crypto/src/backend/native.rs:858-864 | one table step is eight division steps, for every state and byte: the table index is exactly what is shifted out |
| Crc16.ByteStepIsABijection | crates/mochimo-crypto/src/backend/native.rs:858-864 | for each byte, every target state has exactly one source state |
| Crc16.RemainderIsInjectiveInTheState | crates/mochimo-crypto/src/backend/native.rs:858-864 | over any input, two states that end alike started alike |
| Crc16.TwoBytes | crates/mochimo-crypto/src/backend/native.rs:858-864 | two byte steps are sixteen division steps of the two bytes as one word |
| Crc16.RemainderIsBitSerial | crates/mochimo-crypto/src/backend/native.rs:858-864 | the checksum by bytes is the division of the input's bits, one by one, from any state |
| Crc16.RemainderOfOne | crates/mochimo-crypto/src/backend/native.rs:836-864 | the remainder of the one byte 1 is the polynomial, 0x1021 |
| Crc16.BitsAreOneWord | crates/mochimo-crypto/src/backend/native.rs:858-864 | up to sixteen bits divided one by one are one word brought in at once |
| Crc16.ShortBurstSeparates | crates/mochimo-crypto/src/backend/native.rs:858-864 | from one state, two different runs of up to sixteen bits end in different states |
| Crc16.BurstsAreDetected | crates/mochimo-crypto/src/backend/native.rs:836-864 | two inputs of one length, however short, that differ only within sixteen consecutive bits, starting at any bit, never have the same checksum |
| Crc16.AdjacentBytesAlwaysDetected | crates/mochimo-crypto/src/backend/native.rs:836-864 | in particular two inputs that differ only within two adjacent bytes |
| Base58.BuildMap | crates/mochimo-crypto/src/backend/native.rs:972-993 | the inverse map holds each symbol's digit, and the marker exactly for the bytes outside the alphabet |
| Base58.MultiplyAdd | crates/mochimo-crypto/src/backend/native.rs:1034-1047 | one pass, carry loop and pushed digits included, leaves the trimmed digits of `value * multiplier + input`, whatever the digits were |
| Base58.MultiplyInPlace | crates/mochimo-crypto/src/backend/native.rs:1034-1047 | the in-place carry loop keeps digits written plus carry equal to digits read times the multiplier plus the input; the carry stays below the multiplier (255 encoding, 57 decoding); no zero is left on top |
| Base58.CarryBelow | crates/mochimo-crypto/src/backend/native.rs:1095-1112 | the carry bound is kept by every step, and the sum formed stays below base times multiplier |
| Base58.DecodeDigits | crates/mochimo-crypto/src/backend/native.rs:1081-1118 | the digits of the numeral after the leading ones, in base 256; refused exactly on a byte outside the alphabet |
| Base58.Encode | crates/mochimo-crypto/src/backend/native.rs:1024-1057 | one `1` a leading zero byte, then the numeral in base 58; only the empty input is refused |
| Base58.EncodedSpells | crates/mochimo-crypto/src/backend/native.rs:1024-1057 | the characters, read in base 58, are worth what the bytes are worth in base 256, with as many leading ones as there are leading zero bytes |
| Base58.Decode | crates/mochimo-crypto/src/backend/native.rs:1081-1118 | one zero byte a leading `1`, then the numeral in base 256 |
| Base58.NumeralRoundTrip | crates/mochimo-crypto/src/backend/native.rs:1024-1118 | a numeral without a leading zero, rewritten in another base and back, is itself |
| Base58.DecodeAfterEncode | crates/mochimo-crypto/src/backend/native.rs:1024-1118 | decoding an encoding gives the bytes back, for every non-empty input, all-zero included |
| Base58.EncodeAfterDecode | crates/mochimo-crypto/src/backend/native.rs:1024-1118 | encoding a decoding gives the string back, for every accepted string, all-`1` included |
| Base58.DecodeRefuses | crates/mochimo-crypto/src/backend/native.rs:1081-1118 | a string is refused exactly when it is empty or has a byte outside the alphabet |
| Base58Lengths.PlacesBound | crates/mochimo-crypto/src/backend/native.rs:1034-1047 | from `b^p <= a^q`: a value below `b^n` that is at least `a^m` has `m*p < n*q` |
| Base58Lengths.Constants | crates/mochimo-crypto/src/backend/native.rs:1034-1112 | the power inequalities the bounds rest on: `256^8 <= 58^11`, `58^71 <= 256^52`, `58^30 < 256^22`, `58^39 >= 256^28` |
| Base58Lengths.EncodeStaysWithinCapacity | crates/mochimo-crypto/src/backend/native.rs:1034-1047 | encoding never outgrows the `len*138/100 + 1` digits it reserves, for every input |
| Base58Lengths.DecodeStaysWithinCapacity | crates/mochimo-crypto/src/backend/native.rs:1095-1112 | decoding never outgrows the `n*733/1000 + 1` bytes it reserves, for every accepted string |
| Base58Lengths.DecodedLength | crates/mochimo-crypto/src/backend/native.rs:1081-1118 | `k` characters after the leading ones decode to at most `52k/71 + 1` bytes, and a string of at most 40 to no fewer than its length less eleven |
| Base58Lengths.PayloadLength | crates/mochimo-crypto/src/addr.rs:137-170 | every 22-byte payload prints as 22 to 31 characters |
| Base58Lengths.PayloadLengthIsExact | crates/mochimo-crypto/src/addr.rs:137-170 | both ends of that window are reached |
| Base58Lengths.FortyCharactersAreTooMany | crates/mochimo-crypto/src/addr.rs:158-166 | an accepted 40-character string decodes to at least 29 bytes, so no string is a tag both in hex and in Base58 |
| TagCodec.DecodeText | crates/mochimo-crypto/src/base58.rs:76-93 | the all-`1` class and the general decoder together are one decoder over the text's bytes |
| TagCodec.AllOnesText | crates/mochimo-crypto/src/base58.rs:76-93 | a non-empty text of only `1`s decodes to as many zero bytes, by either arm |
| TagCodec.TagToBase58 | crates/mochimo-crypto/src/addr.rs:239-245 | what is printed is the Base58 form of the tag and its checksum |
| TagCodec.TagFromBase58 | crates/mochimo-crypto/src/addr.rs:278-303 | what is accepted, and the refusal for each way a text can fail |
| TagCodec.PrintedSpells | crates/mochimo-crypto/src/addr.rs:239-245 | what is printed spells the tag, its checksum's low byte and then its high byte |
| TagCodec.ParsedMeans | crates/mochimo-crypto/src/addr.rs:278-303 | accepted exactly when 22 to 31 characters decode to a tag and its own checksum; each refusal has its own cause |
| TagCodec.ParseAfterPrint | crates/mochimo-crypto/src/addr.rs:239-303 | parsing a printed tag gives the tag back, for every 20-byte tag |
| TagCodec.PrintAfterParse | crates/mochimo-crypto/src/addr.rs:239-303 | every accepted text is exactly the one printed for the tag it yields |
| TagCodec.DamagedTagIsRefused | crates/mochimo-crypto/src/addr.rs:278-303 | a tag damaged within sixteen consecutive bits, its old checksum carried, is refused as a checksum mismatch |
| WotsDigits.UllToBytes | crates/mochimo-crypto/src/backend/native.rs:94-106 | the big-endian bytes of the value, in the slice and nowhere else |
| WotsDigits.BigEndianTruncates | crates/mochimo-crypto/src/backend/native.rs:94-106 | `n` bytes hold the value modulo `256^n` |
| WotsDigits.BaseW | crates/mochimo-crypto/src/backend/native.rs:307-329 | the output is the input's nibbles, high one first |
| WotsDigits.NibblesAreBase16 | crates/mochimo-crypto/src/backend/native.rs:307-329 | all the nibbles are the base-16 digits of the bytes read as a number |
| WotsDigits.NibblesAreInjective | crates/mochimo-crypto/src/backend/native.rs:307-329 | two equally long inputs with the same nibbles are the same |
| WotsDigits.WotsChecksum | crates/mochimo-crypto/src/backend/native.rs:375-391 | for every 64 signed 32-bit words, wrapping adds, shift and truncation included, the digits are those of the exact sum of `15 - d` modulo 4096 |
| WotsDigits.ShiftedAndTruncated | crates/mochimo-crypto/src/backend/native.rs:375-391 | the wrapped sum shifted by four, cut to two bytes and read again as nibbles, is the sum's three low base-16 digits |
| WotsDigits.ChainLengths | crates/mochimo-crypto/src/backend/native.rs:404-413 | the 67 chain lengths: 64 nibbles of the message and three checksum digits |
| WotsDigits.LengthsMean | crates/mochimo-crypto/src/backend/native.rs:404-413 | each byte gives its high and then its low half, and the last three lengths, as one number, are what the others fall short of 960 |
| WotsDigits.NeitherDominates | crates/mochimo-crypto/src/backend/native.rs:404-413 | for any two distinct messages some chain is strictly shorter for the first and some strictly longer |
| WotsDigits.SomeDigitBelowTopSomeAboveZero | crates/mochimo-crypto/src/backend/native.rs:404-413 | the first checksum digit is below 15, and some digit is above zero, for every message |
| Wots.AddrToBytes | crates/mochimo-crypto/src/backend/native.rs:118-124 | the eight words, big-endian |
| Wots.PrfOf | crates/mochimo-crypto/src/backend/native.rs:151-158 | SHA-256 over the padding 3, the key and the input |
| Wots.ThashF | crates/mochimo-crypto/src/backend/native.rs:177-195 | the compression step for the address as it stood, and word 7 left at 1 |
| Wots.ThashIgnoresWordSeven | crates/mochimo-crypto/src/backend/native.rs:177-195 | what word 7 held before does not matter |
| Wots.ChainsCompose | crates/mochimo-crypto/src/backend/native.rs:219-237 | `m` steps and then `n` are `m + n` steps |
| Wots.GenChain | crates/mochimo-crypto/src/backend/native.rs:219-237 | the chain's value after the steps taken, with the words it leaves, for every start and step count, wrapping included |
| Wots.GenChainCounted | crates/mochimo-crypto/src/backend/native.rs:263-282 | the same, and the count is the number of steps taken |
| WotsKeys.ChunksOfFlatten | crates/mochimo-crypto/src/backend/native.rs:584-710 | cutting a key into its 32-byte chunks undoes writing them one after another |
| WotsKeys.ExpandSeedInto | crates/mochimo-crypto/src/backend/native.rs:491-503 | chunk `i` is the pseudorandom function of `i` under the secret |
| WotsKeys.Pkgen | crates/mochimo-crypto/src/backend/native.rs:524-552 | the public key depends on words 0 to 4 only; words 0 to 4 stay and 5 to 7 end at 66, 14, 1 |
| WotsKeys.SignCounted | crates/mochimo-crypto/src/backend/native.rs:611-647 | chain `i` is run as many steps as its length; words 0 to 4 stay, word 5 ends at 66, word 6 one below the last non-zero digit, word 7 at 1 |
| WotsKeys.PkFromSigCounted | crates/mochimo-crypto/src/backend/native.rs:684-710 | recovery runs each chain the remaining `15 - length` steps; words 5 to 7 end at 66, 14, 1 |
| WotsKeys.SignatureRecovers | crates/mochimo-crypto/src/backend/native.rs:524-710 | recovery from a signature is the public key, for every secret, public seed, message and words 0 to 4 |
| WotsKeys.GenerateSignRecover | crates/mochimo-crypto/src/backend/native.rs:524-710 | the three loops run on three address arrays that agree on words 0 to 4 only: the key is recovered, each sign count plus recovery count is 15, and generating and recovering leave the same words |
| WotsKeys.TerminalWords | crates/mochimo-crypto/src/backend/native.rs:524-710 | what the three sequences of chain runs leave in the words, for every message and every incoming words |
| WotsKeys.SomeChainMoves | crates/mochimo-crypto/src/backend/native.rs:404-413 | signing always moves some chain, and recovery always moves some checksum chain |
| Readings.ChunkIsHashed | crates/mochimo-crypto/src/backend/native.rs:491-503 | chain `i` starts from the hash of the padding 3, the secret and `i` as 32 bytes |
| Readings.StartsAreSeparate | crates/mochimo-crypto/src/backend/native.rs:491-503 | there are hash functions under which the 67 starts of every secret are pairwise different, and ones under which two secrets start every chain differently |
| Readings.StepIsHashed | crates/mochimo-crypto/src/backend/native.rs:151-195 | a step hashes the key at word 7 = 0 and the input masked by the mask at word 7 = 1 |
| Readings.StepReads | crates/mochimo-crypto/src/backend/native.rs:177-195 | with hash functions that hand part of their input back: which of key, mask, address, public seed and input enters a step, and where |
| Readings.MaskedByBits | crates/mochimo-crypto/src/backend/native.rs:177-195 | masking is exclusive or, byte by byte |
| Readings.AddressHoldsWords | crates/mochimo-crypto/src/backend/native.rs:118-124 | each word lies most significant byte first, in its own four bytes |
| Readings.ChainReads | crates/mochimo-crypto/src/backend/native.rs:219-237 | a chain's last step is at the position before its end, and names it in word 6 |
| Readings.PublicChainIsNamed | crates/mochimo-crypto/src/backend/native.rs:524-552 | under such functions every part of a public key names its own chain, walked to position 14 |
| Readings.SignedChainIsNamed | crates/mochimo-crypto/src/backend/native.rs:611-710 | a signature walks chain `i` to one below its length, or not at all; recovery walks it on to 14, or not at all |
| Readings.PublicChainsDiffer | crates/mochimo-crypto/src/backend/native.rs:524-552 | so no two chains of a public key end alike under them |
| Readings.PublicInOrder | crates/mochimo-crypto/src/backend/native.rs:524-552 | a public key is its 67 chains in order |
| Readings.SignedInOrder | crates/mochimo-crypto/src/backend/native.rs:611-647 | a signature is its 67 chains in order |
| Readings.RecoveredInOrder | crates/mochimo-crypto/src/backend/native.rs:684-710 | recovery takes each chain from its own place in the signature |
| AdrsImage.ImageToWords | crates/mochimo-crypto/src/wots.rs:44-50 | the words of a little-endian image |
| AdrsImage.WordsToImage | crates/mochimo-crypto/src/wots.rs:53-60 | the little-endian image of the words |
| AdrsImage.ImageHoldsWords | crates/mochimo-crypto/src/wots.rs:53-60 | each word lies least byte first, in its own four bytes |
| AdrsImage.WordsOfImage | crates/mochimo-crypto/src/wots.rs:44-60 | reading back a written image gives the words |
| AdrsImage.ImageOfWords | crates/mochimo-crypto/src/wots.rs:44-60 | writing read words gives the image back |
| AdrsImage.PrefixOfImage | crates/mochimo-crypto/src/wots.rs:44-50 | the first words of an image come from its first bytes only |
| Attach.VerifyWots | crates/mochimo-crypto/src/mesh/spend.rs:450-467 | accepted exactly when recovery leaves the stored words as they are and the recovered key hashes to the source |
| Attach.AttachSignature | crates/mochimo-crypto/src/mesh/spend.rs:396-418 | what is attached or why not: position, public key, address scheme, source hash, in that order |
| Attach.VerifyMeans | crates/mochimo-crypto/src/mesh/spend.rs:450-467 | accepted exactly when words 5 to 7 are 66, 14, 1 and the recovered key hashes to the source; which refusal, otherwise |
| Attach.AttachMeans | crates/mochimo-crypto/src/mesh/spend.rs:396-418 | attached exactly when the position is the planned one, recovery gives the key named and that key hashes to the source; which refusal, otherwise; and what is attached |
| Attach.AcceptedScheme | crates/mochimo-crypto/src/mesh/spend.rs:450-459 | stored words are refused exactly when words 5 to 7 are not 66, 14, 1 |
| Attach.OwnSignatureAttaches | crates/mochimo-crypto/src/mesh/spend.rs:396-418 | a signature made by the reserved key over the planned digest always attaches |
| Attach.AttachedVerifies | crates/mochimo-crypto/src/mesh/spend.rs:396-467 | whatever attaches verifies, from its stored form, against the source it was attached for |
| Generator.DigestRandomGenerator.Fill | crates/mochimo-crypto/src/derive.rs:203-208 | the bytes drawn and the state left, for any length |
| Generator.DigestRandomGenerator.GenerateState | crates/mochimo-crypto/src/derive.rs:184-191 | one state: the counters move, and the seed is cycled on every tenth, counting from one |
| Generator.FillsCompose | crates/mochimo-crypto/src/derive.rs:165-222 | filling `a` and then `b` is filling `a + b`, in bytes and in final state, whenever 64 divides `a` |
| Generator.GeneratorLaw | crates/mochimo-crypto/src/derive.rs:165-222 | after any fills the states generated are the sum of `ceil(n/64)` and the seed cycles are `(states + 1) / 10` |
| Generator.AfterFillsIsOneRun | crates/mochimo-crypto/src/derive.rs:203-208 | a sequence of fills leaves the state one run of as many states leaves |
| Derivation.DeriveSeedRunning | crates/mochimo-crypto/src/derive.rs:282-292 | the running generator gives the derived secret and the generator left behind it |
| Derivation.FirstKeyRunning | crates/mochimo-crypto/src/derive.rs:405-424 | the running generator gives the first key: secret, public seed and words drawn past the unused 2144 bytes |
| Derivation.DeriveAccountKeepsItsSeed | crates/mochimo-crypto/src/derive.rs:569-578 | an account's first key has its seed for secret, and its tag is that key's hash |
| Readings.SecretIsDrawn | crates/mochimo-crypto/src/derive.rs:282-292 | the secret is the first 32 bytes hashed from the counter, a zero state and the seed material, which is the seed and the big-endian number, hashed |
| Readings.NumbersReachTheSecrets | crates/mochimo-crypto/src/derive.rs:282-292 | there are hash functions under which, for every seed, different numbers give different secrets, different accounts different seeds and different positions different secrets |
| Readings.SeedsReachTheSecrets | crates/mochimo-crypto/src/derive.rs:282-292 | and hash functions under which different seeds give different secrets at every number |
| Readings.SecretAtPosition | crates/mochimo-crypto/src/account.rs:668-680 | the first position is the seed's own, and position `p` is rotation `p - 1` |
| Readings.GeneratorLeft | crates/mochimo-crypto/src/derive.rs:282-292 | the generator left behind a secret has drawn one state, from the same seed material |
| Readings.StateIsHashed | crates/mochimo-crypto/src/derive.rs:165-222 | a state is the hash of the counter, the state before it and the seed, and on every tenth the seed is hashed with its own counter |
| Readings.FilledFromStates | crates/mochimo-crypto/src/derive.rs:203-208 | byte `j` drawn is byte `j % 64` of state `j / 64 + 1` |
| Readings.FirstKeyIsDrawn | crates/mochimo-crypto/src/derive.rs:405-424 | the public seed is drawn bytes 2144 to 2175 and the address image the 32 after them; the key is generated from these |
| Accounts.Account.AdvanceTo | crates/mochimo-crypto/src/account.rs:461-472 | the index moves exactly when the target is above it; nothing else changes |
| Accounts.Account.Advance | crates/mochimo-crypto/src/account.rs:480-483 | one step, refused at the last position |
| Accounts.MovesMean | crates/mochimo-crypto/src/account.rs:461-483 | a step goes one up, a named position is reached only from below it, and a refusal names the range |
| Accounts.ImportMeans | crates/mochimo-crypto/src/account.rs:386-406 | an import is accepted exactly when the root generates the stored public key from the stored public seed and words 0 to 4; it starts at zero, under that key's hash |
| Accounts.RestoreMeans | crates/mochimo-crypto/src/account.rs:548-590 | a record is read back exactly when its root gives its tag and its stream; the index is the recorded one |
| Accounts.KeyRefusals | crates/mochimo-crypto/src/keystore/sign.rs:270-344 | why a key is refused, in order: access of the other kind, another tag, a seed also held as an imported root, another stream; and never otherwise |
| Accounts.RecordRoundTrip | crates/mochimo-crypto/src/account.rs:386-590 | every account imported or derived, and then advanced in any way, is read back from its record as it was |
| Accounts.MovesKeepIdentity | crates/mochimo-crypto/src/account.rs:461-483 | no move changes the tag or the keys, and none lowers the index |
| Accounts.ImportOfDerived | crates/mochimo-crypto/src/account.rs:386-406 | importing any derived account's seed and stored first address succeeds, for any 12-byte tag written over words 5 to 7, with the same tag and the same key stream |
| Accounts.OverlayKeepsFixedWords | crates/mochimo-crypto/src/derive.rs:371-379 | the tag overwrites words 5 to 7 of the stored first key and nothing the key depends on |
| Accounts.ImportHoldsTheSameKeys | crates/mochimo-crypto/src/account.rs:386-631 | the import has the derived account's address at every position |
| Accounts.ConstructorsBuild | crates/mochimo-crypto/src/account.rs:386-429 | what the constructors build carries the tag and the stream its own material gives |
| Accounts.LabelNamesTheKey | crates/mochimo-crypto/src/keystore/sign.rs:270-344 | whatever access reaches a key, its stream identifies the seed it is drawn from, and seed and position fix its secret, and past the first position the whole key |
| Readings.FirstAddressIsTheTagTwice | crates/mochimo-crypto/src/keystore/sign.rs:270-344 | the address at the first position is the tag twice |
| Readings.SecondAddressNamesTheStream | crates/mochimo-crypto/src/keystore/sign.rs:270-344 | the address at the second is the tag and the key stream's identity |
| Readings.AddressIsHashed | crates/mochimo-crypto/src/addr.rs:11-35 | an address is the tag and the key's SHA3-512 hashed again by RIPEMD-160 |
| Accounts.RefusalIgnoresPosition | crates/mochimo-crypto/src/keystore/sign.rs:270-344 | a key is refused for the account, never for the position |
| Accounts.StoreDerivesWhatRestoreScanned | crates/mochimo-crypto/src/recon.rs:1230-1236 | store and restore derive the same address at every position, unless the seed is also held as an imported root |
| Scan.PositionsEnumerate | crates/mochimo-crypto/src/recon.rs:262-285 | a scan walks each position of the window and of the range below the ceiling exactly once, and never the last position |
| Scan.ReachCounts | crates/mochimo-crypto/src/recon.rs:296-312 | the count is the number of positions walked, for all inputs, and its final clamp never fires |
| Scan.PositionsAre | crates/mochimo-crypto/src/recon.rs:262-285 | the window around the local index comes first, upwards, and then the rest below the ceiling, upwards |
| Scan.Walk | crates/mochimo-crypto/src/recon.rs:1180-1192 | ask, derive, compare, position by position; the result, how often the predicate was asked and what the observer was told |
| Scan.WalkFindsTheFirst | crates/mochimo-crypto/src/recon.rs:1180-1192 | the walk reports the first match in its order, and nothing exactly when there is none |
| Scan.WalkMeans | crates/mochimo-crypto/src/recon.rs:1180-1192 | over a whole scope: the position found is the first walked that has the address, and none is found only if none has |
| Scan.WalkEndsWhereItSays | crates/mochimo-crypto/src/recon.rs:1180-1192 | where a walk ended, and why, for any predicate: at no earlier position was there a stop, a refusal or a match |
| Scan.WalkIsComplete | crates/mochimo-crypto/src/recon.rs:1180-1192 | over a whole scope: not found exactly when no walked position reproduces the target |
| Scan.WalkAsksAtMost | crates/mochimo-crypto/src/recon.rs:1180-1192 | a walk asks at most once for each position it could reach |
| Scan.WalkTransparent | crates/mochimo-crypto/src/recon.rs:1880-1885 | a walk ends as cancelled exactly when one of its askings was answered stop, and is otherwise unaffected |
| Scan.Locate | crates/mochimo-crypto/src/recon.rs:1870-1915 | ahead, behind or unlocated, with the gap, or where and why the walk stopped |
| Scan.LocateMeans | crates/mochimo-crypto/src/recon.rs:1870-1915 | the chain is put at the first walked position with its address, ahead or behind by the difference, and nowhere only if none has it |
| Scan.LocateStops | crates/mochimo-crypto/src/recon.rs:1870-1915 | a walk that is stopped places the chain nowhere and names the last position it asked about |
| Scan.LocateTransparent | crates/mochimo-crypto/src/recon.rs:1870-1915 | the same transparency for the position found |
| Cancellation.Cancel.Stop | crates/mochimo-crypto/src/recon.rs:628-742 | the answer is the predicate's, whoever counts or remembers; the report owed by this asking is made; a stop is remembered |
| Cancellation.ReportsEvery256 | crates/mochimo-crypto/src/recon.rs:722-742 | a walk reports at its 256th position, its 512th and so on, and at no other |
| Store.InsertedEnumerates | crates/mochimo-crypto/src/keystore/mod.rs:998-1001 | the tags stay listed once each when an account is added |
| Writes.InsertedAscends | crates/mochimo-crypto/src/keystore/mod.rs:998-1001 | the tags ascend byte by byte, before an account is added and after |
| Store.Keystore.WriteImage | crates/mochimo-crypto/src/keystore/mod.rs:1009-1033 | a commit lands whole, or is not attempted, or fails leaving the old image or the new one and a dead handle |
| Store.Keystore.DoPersistAdvance | crates/mochimo-crypto/src/keystore/mod.rs:1235-1251 | reserve the current key and move past it in one write, or the exact refusal |
| Store.Keystore.DoPersistAdvanceTo | crates/mochimo-crypto/src/keystore/mod.rs:1259-1277 | move to a position above the stored one, never over a reservation |
| Store.Keystore.DoPersistSettled | crates/mochimo-crypto/src/keystore/mod.rs:1345-1370 | turn the reservation into the retained settle |
| Writes.ReservingMeans | crates/mochimo-crypto/src/keystore/mod.rs:1235-1251 | a reservation leaves the image with this one slot changed and the generation one on, or what a failed write leaves |
| Writes.MovingMeans | crates/mochimo-crypto/src/keystore/mod.rs:1259-1277 | a move leaves the account at the target, with no reservation and no retained settle, and nothing else changed |
| Writes.SettlingMeans | crates/mochimo-crypto/src/keystore/mod.rs:1345-1370 | a settle leaves the reservation as the retained settle, and nothing else changed |
| Writes.RewriteRefusals | crates/mochimo-crypto/src/keystore/mod.rs:1235-1370 | each of the three is refused, and nothing written, exactly for what stands or does not stand, or the range |
| Store.Keystore.Add | crates/mochimo-crypto/src/keystore/mod.rs:1135-1176 | add an account at its index, unless its tag, root or key stream is held |
| Writes.AddMeans | crates/mochimo-crypto/src/keystore/mod.rs:1135-1176 | an account true to its own seed is added exactly when it shares no tag, no imported root and no key stream; which refusal, otherwise |
| Writes.UntrueIsRefused | crates/mochimo-crypto/src/keystore/mod.rs:1135-1176 | a derived account the store's own master seed does not give is refused |
| Store.Keystore.AdoptMaster | crates/mochimo-crypto/src/keystore/mod.rs:965-995 | a store without a master seed takes one, once |
| Writes.AdoptMeans | crates/mochimo-crypto/src/keystore/mod.rs:965-995 | a master seed is taken once, and nothing else changes |
| Store.Keystore.SignSpend | crates/mochimo-crypto/src/keystore/sign.rs:204-262 | sign only the reserved digest with the reserved key, for a receipt of the live index |
| Store.Keystore.ResignReserved | crates/mochimo-crypto/src/keystore/sign.rs:184-196 | sign the reservation's own digest with its own key |
| Writes.SignMeans | crates/mochimo-crypto/src/keystore/sign.rs:204-262 | signed exactly when the receipt is of the live index, the position before it is reserved for this digest and the key can be had; which refusal, otherwise; and what the signature holds |
| Writes.SignAgainMeans | crates/mochimo-crypto/src/keystore/sign.rs:184-196 | signing again uses the reservation's digest and position, whatever is asked |
| Recon.Reconcile | crates/mochimo-crypto/src/recon.rs:1493-1624 | status or divergence from one node answer, with how often node and predicate were asked |
| Findings.FindingFits | crates/mochimo-crypto/src/recon.rs:1493-1624 | each status and each divergence, with every field it carries, is the one the slot, the addresses and the node's answers call for: balances, expiry, moved balance, where the chain sits, a reverted settle, not found against unreachable |
| Findings.StoppedFits | crates/mochimo-crypto/src/recon.rs:1493-1624 | a finding of a walk that was stopped carries what was found before it, and places the chain nowhere |
| Findings.FindingCalls | crates/mochimo-crypto/src/recon.rs:1493-1624 | the node is asked once, and for the tip only when a standing reservation records an expiry |
| Recon.DoCompareIndex | crates/mochimo-crypto/src/recon.rs:1533-1564 | the comparison when nothing is reserved |
| Recon.DoCompareReserved | crates/mochimo-crypto/src/recon.rs:1567-1622 | the comparison when a key is reserved |
| Recon.ExpiryOf | crates/mochimo-crypto/src/recon.rs:1852-1861 | what is known of an expiry, with the node asked only when there is one |
| Recon.Announced | crates/mochimo-crypto/src/cli/reconcile.rs:215-233 | the report before an account is walked, looked up only when somebody watches |
| Recon.ReportsStayWithinReach | crates/mochimo-crypto/src/recon.rs:287-312 | what is reported of an account goes up by 256 and never past the count announced for it |
| Recon.InSyncMeans | crates/mochimo-crypto/src/recon.rs:1531-1543 | in sync exactly when nothing is reserved and the chain's address is the stored index's |
| Recon.LandedMeans | crates/mochimo-crypto/src/recon.rs:1567-1609 | landed exactly when the chain's address is the change key's and not the spent key's |
| Recon.ReconcileTransparent | crates/mochimo-crypto/src/recon.rs:1493-1624 | stopped exactly when one of its askings was answered stop, and otherwise what it finds with nobody to ask |
| Recon.DerivationNeverStopsAWalk | crates/mochimo-crypto/src/recon.rs:1903-1913 | no walk over a store's keys stops on a derivation error |
| Recon.DoReconcileNext | crates/mochimo-crypto/src/recon.rs:722-742 | access and reconciliation of one account; the result does not depend on whether anybody watches, and the observer is told exactly the announcement and the walk's reports |
| Findings.NextFits | crates/mochimo-crypto/src/recon.rs:1247-1268 | and so for an account of a whole store, with its own root or the master seed for access; without the seed a derived account is not asked about |
| Findings.FindingsAnswered | crates/mochimo-crypto/src/wallet.rs:375-417 | every finding of a pass over a store is called for by an answer the node gave about that account during it |
| Findings.ToldOfOne | crates/mochimo-crypto/src/recon.rs:722-742 | an observer is told which account, of how many, how many positions can be reached, and then every 256th |
| Recon.GuardedAdvance | crates/mochimo-crypto/src/recon.rs:1691-1715 | reconcile again, ask once more if the caller does, and move only to the acknowledged position |
| Opening.OpenAsking | crates/mochimo-crypto/src/wallet.rs:354-434 | every account reconciled in order; the result, independent of any observer, and everything an observer is told |
| Opening.OpenOne | crates/mochimo-crypto/src/wallet.rs:378-417 | one turn of the loop: ask, announce, reconcile, keep |
| OpeningLaws.OpenFiles | crates/mochimo-crypto/src/wallet.rs:375-433 | the two lists are exactly the findings of the accounts, each at its turn, in order: reconciled when they agree, set aside when not |
| OpeningLaws.OpenedAsAnswered | crates/mochimo-crypto/src/wallet.rs:375-433 | nothing is listed or set aside that an answer about that account did not call for; a refusal sets every account aside |
| OpeningLaws.ListedMeans | crates/mochimo-crypto/src/wallet.rs:396-417 | in sync: nothing reserved, the stored index, and the node gave its address; outstanding or landed: that key is reserved, and the node gave its address or its change key's |
| OpeningLaws.DeadIsRefused | crates/mochimo-crypto/src/wallet.rs:354-374 | a handle that failed before refuses the wallet at once, under no account's tag |
| OpeningLaws.OpenTells | crates/mochimo-crypto/src/wallet.rs:375-395 | an observer is told of each account in turn, by its number |
| Opening.OpenTransparent | crates/mochimo-crypto/src/wallet.rs:354-434 | cancelled exactly when some asking was answered stop, even once only; otherwise the form that cannot be cancelled |
| Opening.OpenPartitions | crates/mochimo-crypto/src/wallet.rs:375-433 | every account ends up exactly once, reconciled or set aside under its tag; refused only when there are accounts and none reconciled |
| Spending.Wallet.RequireReconciled | crates/mochimo-crypto/src/wallet.rs:458-465 | refused exactly when the wallet set the account aside |
| SpendingOutcomes.FirstForMeans | crates/mochimo-crypto/src/wallet.rs:458-465 | the account is found set aside exactly when some divergence of the opening has its tag |
| SpendingOutcomes.NextMeans | crates/mochimo-crypto/src/keystore/spend.rs:136-153 | a spend comes from the address at the stored index and its change goes to the next; why not, otherwise |
| Spending.Wallet.Plan | crates/mochimo-crypto/src/wallet.rs:542-554 | the plan for the store's next addresses and the node's answer, or the first refusal, and whether the node was asked |
| SpendingOutcomes.PlanMeans | crates/mochimo-crypto/src/wallet.rs:542-554 | what a plan holds, and each refusal by its cause |
| Spending.Wallet.ReserveAndSign | crates/mochimo-crypto/src/wallet.rs:574-622 | every check, then one write, then the signature: the exact result, the exact store left and how often the node was asked |
| SpendingOutcomes.ObjectionMeans | crates/mochimo-crypto/src/wallet.rs:574-615 | nothing is objected exactly when the account is not set aside, the plan is for its next spend, its expiry is in time and the node repeats address and balance; each objection has its own cause |
| SpendingOutcomes.ReservedAsPlanned | crates/mochimo-crypto/src/wallet.rs:574-622 | the reservation on disk is the plan's position and digest with the plan's own balance and expiry; nothing else of the image changed |
| SpendingOutcomes.ReservedThenOutstanding | crates/mochimo-crypto/src/recon.rs:1567-1590 | a later reconciliation at the source reports it outstanding: no expiry exactly when the plan had none, reached exactly when the tip is not below it, moved exactly when the balance is not the plan's |
| SpendingOutcomes.ReserveAsks | crates/mochimo-crypto/src/wallet.rs:574-615 | how often the node is asked |
| Spending.Wallet.SettleIfLanded | crates/mochimo-crypto/src/wallet.rs:652-685 | the exact result and store of a settle |
| SpendingOutcomes.SettleMeans | crates/mochimo-crypto/src/wallet.rs:652-685 | settled, still outstanding, nothing reserved or refused, each exactly by which address the node gave |
| Spending.Wallet.ResignPending | crates/mochimo-crypto/src/wallet.rs:730-818 | the exact result of signing a reservation again, the landed reservation told apart, and how often the node was asked |
| SpendingOutcomes.ResignMeans | crates/mochimo-crypto/src/wallet.rs:730-818 | each refusal by its cause; landed exactly when the second answer is the change key's address and not the reserved key's |
| SpendingOutcomes.ResignAsks | crates/mochimo-crypto/src/wallet.rs:730-818 | how often the node is asked |
| SpendingLaws.ReserveSignsWhatLands | crates/mochimo-crypto/src/wallet.rs:574-622 | signed exactly when nothing is objected and the write reaches the disk; nothing after the write can fail, and what is signed verifies |
| SpendingLaws.FreshPlan | crates/mochimo-crypto/src/wallet.rs:542-615 | a plan just made meets no objection exactly when the account is not set aside, the tip allows its expiry and the node repeats its answer |
| SpendingLaws.ResignReproduces | crates/mochimo-crypto/src/wallet.rs:730-818 | signing again succeeds exactly when the node shows the source and the draft comes to the reserved digest, and gives the first signature back, byte for byte |
| SpendingLaws.KeyIsWhole | crates/mochimo-crypto/src/keystore/sign.rs:270-344 | every key a store derives is the one its own secret, seed and words generate, at the account's address |
| Settling.SettleWritesWhatLanded | crates/mochimo-crypto/src/wallet.rs:652-685 | the store changes only when the chain shows the change key, and settles exactly when the write then lands |
| Settling.SettledThenInSync | crates/mochimo-crypto/src/wallet.rs:652-685 | the answer that let the settle through then reconciles in sync, for any scope and predicate |
| Settling.SettledThenReverted | crates/mochimo-crypto/src/recon.rs:1545-1563 | a chain back at the spent key is reported one behind with the settle it undoes, exactly when the walk reaches that key; the default scope always does |
| Settling.ResubmitRevertedSettle | crates/mochimo-crypto/src/recon.rs:1741-1846 | what is handed to the node and what it answers, or the first objection, and how often the node was asked |
| SettlingOutcomes.ResubmitMeans | crates/mochimo-crypto/src/recon.rs:1741-1846 | for every slot and answer: sent exactly when the settle is retained, the saved bytes are it, the chain is back at its key just behind, the balance is the recorded one and the expiry readable and not reached; each refusal by its cause |
| SettlingOutcomes.BalanceMeans | crates/mochimo-crypto/src/recon.rs:1784-1830 | what each finding of the narrow walk is taken for |
| Settling.RevertedSettleIsSentAgain | crates/mochimo-crypto/src/recon.rs:1741-1846 | after such a revert the saved bytes are sent exactly when they are the settled spend, whole and verifying, for the recorded balance, before a readable expiry |
| Review.ReviewAsking | crates/mochimo-crypto/src/cli/reconcile.rs:186-336 | the review and its one write: result, store and counts, independent of any observer, and everything an observer is told |
| ReviewOutcomes.ReviewMeans | crates/mochimo-crypto/src/cli/reconcile.rs:186-336 | what is reported, in order; the outcome, by the findings; what the second look must find, and what is then written |
| ReviewOutcomes.DecisionMeans | crates/mochimo-crypto/src/cli/reconcile.rs:250-293 | nothing to do, a second instance, no advance or an advance, each exactly by the named account's finding and the others' |
| ReviewOutcomes.SecondInstanceNames | crates/mochimo-crypto/src/cli/reconcile.rs:262-270 | the tag named is the first other account's whose reservation is unexplained |
| ReviewOutcomes.ReviewTells | crates/mochimo-crypto/src/cli/reconcile.rs:215-321 | an observer is told of each account in turn, and once more of the one looked at again |
| Review.ReviewAll | crates/mochimo-crypto/src/cli/reconcile.rs:224-249 | the loop over the accounts: the reports, the named account's finding and everything an observer is told |
| Review.ReviewOne | crates/mochimo-crypto/src/cli/reconcile.rs:224-249 | one turn of that loop |
| Review.Conclude | crates/mochimo-crypto/src/cli/reconcile.rs:250-335 | what follows from the findings: an outcome, or the second asking, the second walk and the write, with what an observer is told of it |
| Review.Act | crates/mochimo-crypto/src/cli/reconcile.rs:295-335 | the second walk and the write, and which errors become a cancellation |
| ReviewLaws.ReviewTransparent | crates/mochimo-crypto/src/cli/reconcile.rs:186-336 | cancelled exactly when some asking was answered stop, with nothing written; otherwise the form that cannot be cancelled |
| ReviewLaws.ReviewSound | crates/mochimo-crypto/src/cli/reconcile.rs:186-336 | the store changes only by moving the named account to the position given, where the node's last answer puts the chain, strictly ahead and not last, with nothing reserved and no other reservation unexplained |
| ReviewLaws.ReviewAdvances | crates/mochimo-crypto/src/cli/reconcile.rs:186-336 | with the chain staying at the position given, the account moves there exactly when no other reservation is unexplained and the write lands |
| ReviewLaws.AdvancedThenInSync | crates/mochimo-crypto/src/recon.rs:1531-1543 | and then it reconciles in sync there |
| ReviewLaws.GuardedAdvanceSound | crates/mochimo-crypto/src/recon.rs:1691-1715 | an acknowledged advance writes only its own move, where its own walk has just found the chain |
| ReviewOutcomes.GuardedMeans | crates/mochimo-crypto/src/recon.rs:1691-1715 | an acknowledged advance by itself: each refusal by its cause, what is written otherwise, and how often is asked |
| ReviewLaws.ReportsAreFindings | crates/mochimo-crypto/src/cli/reconcile.rs:224-249 | the reports are the findings against their accounts, all of them and nothing else |
| ReviewLaws.SecondInstanceIsFound | crates/mochimo-crypto/src/cli/reconcile.rs:262-270 | the second-instance signal is given exactly when another account's reservation is unexplained |
| Restore.RestoreAsking | crates/mochimo-crypto/src/cli/restore.rs:116-182 | scan, held check, one commit at the index found: result, store and counts, independent of any observer, and everything an observer is told |
| RestoreLaws.RestoreMeans | crates/mochimo-crypto/src/cli/restore.rs:116-182 | with an answer: the lowest index tried whose key has the address, tried being all up to the one given or the first ten thousand; refused with that number when there is none; held already, with the index held, or added at the index found |
| RestoreLaws.RestoreTells | crates/mochimo-crypto/src/cli/restore.rs:131-150 | an observer is told how many indices will be tried at most, and then of every 256th tried |
| RestoreLaws.RestoreAsks | crates/mochimo-crypto/src/cli/restore.rs:116-182 | the caller is asked before, at each index tried, and before the write |
| Restore.RestoreAccountIndex | crates/mochimo-crypto/src/recon.rs:1420-1461 | the index found or the failure, for any scope and predicate |
| Restore.KeepFound | crates/mochimo-crypto/src/cli/restore.rs:158-181 | what becomes of the index found: held already, stored by one commit, cancelled or refused |
| Restore.RestoreTransparent | crates/mochimo-crypto/src/cli/restore.rs:116-182 | cancelled exactly when some asking was answered stop, with nothing written; otherwise the form that cannot be cancelled |
| Restore.ScanFindsTheLowest | crates/mochimo-crypto/src/recon.rs:1420-1461 | the lowest index below the ceiling with the chain's address, and none exactly when there is none; zero is never a fallback |
| Restore.RestoreStores | crates/mochimo-crypto/src/cli/restore.rs:158-181 | stored exactly when the tag is not held, nothing refuses it and the write lands; its seed is then no imported root |
| Restore.RestoredThenInSync | crates/mochimo-crypto/src/cli/restore.rs:116-182 | a restored account reconciles in sync at the index it was restored at |
| Restore.SweepAsking | crates/mochimo-crypto/src/cli/discover.rs:153-198 | the sightings of a range of accounts, independent of any observer, and everything an observer is told |
| Restore.SweepOne | crates/mochimo-crypto/src/cli/discover.rs:163-196 | one turn of its loop |
| Restore.SweepTransparent | crates/mochimo-crypto/src/cli/discover.rs:153-198 | cancelled exactly when some asking was answered stop; otherwise the form that cannot be cancelled |
| Restore.SweepSeesAll | crates/mochimo-crypto/src/cli/discover.rs:153-198 | one sighting an account, in order, each from its own answer; an unreachable node ends it at the account it was asked about |
| Restore.SweepTells | crates/mochimo-crypto/src/cli/discover.rs:163-180 | an observer is told of each account before the node is asked about it |
| Safety.NoKeySignsTwice | crates/mochimo-crypto/src/wallet.rs:574-818 | over every run from a new store, whatever node, predicate and writes do: each seed and position, and each stream and position, signs at most one digest; every key used is behind the stored index; a live handle holds what the disk holds |
| Safety.NothingGoesBack | crates/mochimo-crypto/src/recon.rs:1644-1714 | between any two moments of a run every account keeps its keys and an index no lower, and no signature is forgotten |
| Safety.StepIsSafe | crates/mochimo-crypto/src/wallet.rs:574-818 | every single operation keeps the invariant that ties signed positions, reservation and index together |
| Safety.ReachableStoresAreWhole | crates/mochimo-crypto/src/keystore/mod.rs:1235-1370 | in every reachable store a reservation is of the position just behind the index, and tags and streams are the accounts' own |
| Safety.StoreAfterKeeps | crates/mochimo-crypto/src/wallet.rs:574-818 | every operation leaves a sound store whose accounts did not go back |
| Safety.HeldAgrees | crates/mochimo-crypto/src/keystore/sign.rs:243-252 | a signature held by a live reservation agrees with every other of its stream and position |
| Safety.HandedOutIsRecorded | crates/mochimo-crypto/src/wallet.rs:574-818 | every signature the wallet hands out is recorded, for the position and digest planned or reserved |
| Safety.StoreSigningIsRecorded | crates/mochimo-crypto/src/keystore/sign.rs:184-262 | so is every signature of the store's own calls |
| Running.Perform | crates/mochimo-crypto/src/wallet.rs:354-818 | each operation of a run is carried out by the methods modelled here, and leaves the state the run is reasoned about with |
| Running.PerformAll | crates/mochimo-crypto/src/wallet.rs:354-818 | and so for a whole run |
| Safety.MadeIsHeld | crates/mochimo-crypto/src/keystore/sign.rs:204-262 | every signature an operation makes has its reservation on the disk when the operation is done |
| Safety.CommitKeeps | crates/mochimo-crypto/src/keystore/mod.rs:1009-1033 | however a write ends, the disk holds the old image or the new one, and a live handle holds what the disk holds |
| Safety.AddFollows | crates/mochimo-crypto/src/keystore/mod.rs:1135-1176 | adding an account keeps tags, order and key streams apart |
| LineReader.ReadScrubbedLine | crates/mochimo-crypto/src/bin/tawara.rs:657-691 | the result is a function of the delivered bytes up to the first newline, end or break |
| LineReader.Append | crates/mochimo-crypto/src/bin/tawara.rs:668-679 | one chunk's bytes up to a newline; the buffer is replaced before a byte would not fit, so none is written past its end |
| LineReader.DeliveredMeans | crates/mochimo-crypto/src/bin/tawara.rs:662-680 | every byte read before the first empty read, break or end, and nothing else |
| LineReader.ReadMeans | crates/mochimo-crypto/src/bin/tawara.rs:657-691 | the line ends with the first newline; without one a break fails, and nothing at all is no line; then decoded whole and trimmed |
| LineReader.InterruptionsDoNotMatter | crates/mochimo-crypto/src/bin/tawara.rs:662-667 | an interrupted read anywhere changes nothing |
| LineReader.ChunkingDoesNotMatter | crates/mochimo-crypto/src/bin/tawara.rs:662-680 | one read or two for the same bytes, anywhere: the same result |
| LineReader.TheRestDoesNotMatter | crates/mochimo-crypto/src/bin/tawara.rs:675-678 | whatever follows the newline, a break included, does not matter |

## Left out

- The hash functions' own code, key stretching and encryption of the image: library code, arbitrary functions here or not present.
- The node's transport and encoding: the node is what it answers. A transaction sent again is the bytes handed over and whatever comes back.
- The bytes of a transaction, and the checks on destinations, amounts and fees in `SpendPlan::new`: a draft is an arbitrary function from the addresses and the balance to a digest or a refusal.
- How an image is written, locked, permitted and read back: a commit lands, is not attempted, or leaves the old image or the new one. That a torn write leaves one of the two is an assumption of the model.
- Wiping of secrets, constant-time comparison, redaction and every text shown to a person.
- The identity of two streams is the identity of their 20-byte identifiers; the model does not say that different seeds have different identifiers.
- `positions` is a lazy iterator in the source and a sequence in `Scan`; the order and the members are the same.
- Spending.Wallet.Plan: the totals of a plan are the draft's business; that they add up to the balance is not stated.
- LineReader.ReadScrubbedLine: input scripts are finite, so an endlessly interrupted read is not modelled; UTF-8 decoding and trimming are arbitrary functions; a new buffer has exactly the capacity asked for.
- WotsKeys.Pkgen: the 32-byte buffers are values; advancing a chain in its slice of the caller's buffer is modelled on the buffer's chunks.
- Command-line flags, exit codes, mnemonics, the options bytes and the conversions to the shipped index numbering.

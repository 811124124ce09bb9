/** Accounts and their verifying constructors (`account.rs`), and the keys a store derives for
    them (`keystore/sign.rs`). */
module Accounts {
  import opened Base
  import opened Primitives
  import opened Wots
  import opened WotsKeys
  import opened AdrsImage
  import opened Derivation

  const FIRST_KEY_LEN := 64

  type Components = b: seq<byte> | |b| == FIRST_KEY_LEN witness seq(FIRST_KEY_LEN, _ => 0)

  datatype Kind = DerivedKind | ImportedKind

  datatype First = First(pubSeed: Block, adrs: Words)

  datatype KeyMaterial =
    | Derived(accountIndex: u32, stream: Block20)
    | Imported(root: Block, first: First, stream: Block20)

  datatype AccountValue = AccountValue(tag: Block20, key: KeyMaterial, index: u32)

  datatype AccountRecord =
    | DerivedRecord(tag: Block20, accountIndex: u32, streamId: Block20, index: u32)
    | ImportedRecord(tag: Block20, root: Block, firstKey: Components, streamId: Block20, index: u32)

  datatype AccountError =
    | FirstAddressNotReproduced
    | StreamIdNotReproduced
    | Range(min: nat, max: nat, got: nat)

  // ----- positions -----

  function Advanced(index: u32): Result<u32, AccountError> {
    if index == U32_MAX then Err(Range(0, U32_MAX, index)) else Ok(index + 1)
  }

  /** Which rotation a position is, the first key being none. */
  function Rotation(position: u32): Option<u32> {
    if position == 0 then None else Some(position - 1)
  }

  // ----- building, storing and reading back -----

  function FirstFrom(components: Components): First {
    First(components[..SEED_LEN], FromLeImage(components[SEED_LEN..]))
  }

  function FirstBytes(first: First): Components { first.pubSeed + LeImage(first.adrs) }

  function ImportedParts(h: Hashes, root: Block, components: Components): (KeyBytes, Block20) {
    var first := FirstFrom(components);
    var pk := PublicKey(h, root, first.pubSeed, first.adrs[..5]);
    (pk, AddrHash(h, pk))
  }

  function Import(h: Hashes, root: Block, firstAddress: LegacyAddress): Result<AccountValue, AccountError> {
    var components := firstAddress[PK_LEN..];
    var (pk, tag) := ImportedParts(h, root, components);
    if pk != firstAddress[..PK_LEN] then Err(FirstAddressNotReproduced)
    else Ok(AccountValue(tag, Imported(root, FirstFrom(components), StreamId(h, root)), 0))
  }

  function Derive(h: Hashes, master: Block, index: u32): AccountValue {
    var derived := DeriveAccount(h, master, index);
    AccountValue(derived.tag, Derived(index, StreamId(h, derived.seed)), 0)
  }

  function ToRecord(a: AccountValue): AccountRecord {
    match a.key
    case Derived(accountIndex, stream) => DerivedRecord(a.tag, accountIndex, stream, a.index)
    case Imported(root, first, stream) => ImportedRecord(a.tag, root, FirstBytes(first), stream, a.index)
  }

  function RestoreFromRecord(h: Hashes, record: AccountRecord): Result<AccountValue, AccountError> {
    match record
    case DerivedRecord(tag, accountIndex, streamId, index) =>
      Ok(AccountValue(tag, Derived(accountIndex, streamId), index))
    case ImportedRecord(tag, root, firstKey, streamId, index) =>
      var (_, computedTag) := ImportedParts(h, root, firstKey);
      if computedTag != tag then Err(FirstAddressNotReproduced)
      else
        var computedStream := StreamId(h, root);
        if computedStream != streamId then Err(StreamIdNotReproduced)
        else Ok(AccountValue(tag, Imported(root, FirstFrom(firstKey), computedStream), index))
  }

  class Account {
    const tag: Block20
    const key: KeyMaterial
    var index: u32

    function Value(): AccountValue
      reads this
    {
      AccountValue(tag, key, index)
    }

    constructor (a: AccountValue)
      ensures Value() == a
    {
      tag, key, index := a.tag, a.key, a.index;
    }

    method AdvanceTo(target: u32) returns (r: Result<(), AccountError>)
      modifies this
      ensures r == AdvanceToResult(old(index), target)
      ensures Value() == old(Value()).(index := if r.Ok? then target else old(index))
    {
      if target <= index {
        return Err(Range(index as int + 1, U32_MAX, target));
      }
      index := target;
      return Ok(());
    }

    method Advance() returns (r: Result<u32, AccountError>)
      modifies this
      ensures r == Advanced(old(index))
      ensures Value() == old(Value()).(index := if r.Ok? then r.value else old(index))
    {
      var next := Advanced(index);
      if next.Err? {
        return next;
      }
      index := next.value;
      return Ok(index);
    }
  }

  function AdvanceToResult(index: u32, target: u32): Result<(), AccountError> {
    if target <= index then Err(Range(index as int + 1, U32_MAX, target)) else Ok(())
  }

  // ----- round trips -----

  /** The move an account can make: one step, or to a named position. Refused moves change nothing. */
  datatype Move = StepOne | To(target: u32)

  function Moved(a: AccountValue, move: Move): AccountValue {
    match move
    case StepOne => (match Advanced(a.index) case Ok(next) => a.(index := next) case Err(_) => a)
    case To(target) => if AdvanceToResult(a.index, target).Ok? then a.(index := target) else a
  }

  function MovedBy(a: AccountValue, moves: seq<Move>): AccountValue
    decreases |moves|
  {
    if moves == [] then a else MovedBy(Moved(a, moves[0]), moves[1..])
  }

  ghost predicate Built(h: Hashes, a: AccountValue) {
    a.key.Imported? ==>
      && a.tag == ImportedParts(h, a.key.root, FirstBytes(a.key.first)).1
      && a.key.stream == StreamId(h, a.key.root)
  }

  lemma {:induction false} MovesKeepIdentity(h: Hashes, a: AccountValue, moves: seq<Move>)
    ensures var b := MovedBy(a, moves);
            b.tag == a.tag && b.key == a.key && a.index <= b.index
    decreases |moves|
  {
    if moves == [] {
    } else {
      MovesKeepIdentity(h, Moved(a, moves[0]), moves[1..]);
    }
  }

  /** A step goes one up, and a named position is reached only from below it; a move that is refused
      says the range it would have had to be in. */
  lemma MovesMean(a: AccountValue, target: u32)
    ensures a.index < 0xFFFF_FFFF ==> Moved(a, StepOne) == AccountValue(a.tag, a.key, a.index + 1)
    ensures a.index == 0xFFFF_FFFF ==> Moved(a, StepOne) == a && Advanced(a.index) == Err(Range(0, a.index, a.index))
    ensures Moved(a, To(target)) == AccountValue(a.tag, a.key, if a.index < target then target else a.index)
    ensures AdvanceToResult(a.index, target).Ok? <==> a.index < target
    ensures target <= a.index ==>
              AdvanceToResult(a.index, target) == Err(Range(a.index as nat + 1, 0xFFFF_FFFF, target))
  {
  }

  lemma FirstRoundTrip(first: First)
    ensures FirstFrom(FirstBytes(first)) == first
  {
    WordsOfImage(first.adrs);
    assert FirstBytes(first)[..SEED_LEN] == first.pubSeed;
    assert FirstBytes(first)[SEED_LEN..] == LeImage(first.adrs);
  }

  lemma ComponentsRoundTrip(components: Components)
    ensures FirstBytes(FirstFrom(components)) == components
  {
    ImageOfWords(components[SEED_LEN..]);
  }

  lemma ConstructorsBuild(h: Hashes, root: Block, firstAddress: LegacyAddress, index: u32)
    ensures Import(h, root, firstAddress).Ok? ==> Built(h, Import(h, root, firstAddress).value)
    ensures Built(h, Derive(h, root, index))
  {
    hide StreamId, PublicKey, AddrHash, FirstFrom, FirstBytes;
    ComponentsRoundTrip(firstAddress[PK_LEN..]);
  }

  /** Every account built by importing or deriving, and then advanced in any way, is read back
      from its record exactly as it was written. */
  lemma RecordRoundTrip(h: Hashes, root: Block, firstAddress: LegacyAddress, index: u32, moves: seq<Move>)
    ensures var d := MovedBy(Derive(h, root, index), moves);
            RestoreFromRecord(h, ToRecord(d)) == Ok(d)
    ensures Import(h, root, firstAddress).Ok? ==>
              var i := MovedBy(Import(h, root, firstAddress).value, moves);
              RestoreFromRecord(h, ToRecord(i)) == Ok(i)
  {
    hide StreamId, PublicKey, AddrHash, FirstFrom, FirstBytes, Import, Derive;
    ConstructorsBuild(h, root, firstAddress, index);
    var d := Derive(h, root, index);
    MovesKeepIdentity(h, d, moves);
    BuiltRoundTrip(h, MovedBy(d, moves));
    if Import(h, root, firstAddress).Ok? {
      var i := Import(h, root, firstAddress).value;
      MovesKeepIdentity(h, i, moves);
      BuiltRoundTrip(h, MovedBy(i, moves));
    }
  }

  lemma BuiltRoundTrip(h: Hashes, a: AccountValue)
    requires Built(h, a)
    ensures RestoreFromRecord(h, ToRecord(a)) == Ok(a)
  {
    hide StreamId, PublicKey, AddrHash, FirstFrom, FirstBytes, ImportedParts;
    if a.key.Imported? {
      FirstRoundTrip(a.key.first);
    }
  }

  /** The key a root generates from a stored public seed and the stored words 0 to 4. */
  function GeneratedFrom(h: Hashes, root: Block, components: Components): KeyBytes {
    var words := FromLeImage(components[32..]);
    PublicKey(h, root, components[..32], words[..5])
  }

  /** An import is accepted exactly when the root generates, from the stored public seed and words
      0 to 4, the stored public key; and then it starts at zero, under that key's hash. */
  lemma ImportMeans(h: Hashes, root: Block, firstAddress: LegacyAddress)
    ensures var r := Import(h, root, firstAddress);
            && (r.Ok? <==> GeneratedFrom(h, root, firstAddress[2144..]) == firstAddress[..2144])
            && (r.Err? ==> r.error == FirstAddressNotReproduced)
            && (r.Ok? ==> r.value.tag == h.ripemd160(h.sha3_512(firstAddress[..2144])) && r.value.index == 0
                          && r.value.key.Imported? && r.value.key.root == root)
  {
    hide PublicKey, StreamId, FromLeImage, AddrHash;
    HashedTwice(h, firstAddress[..2144]);
  }

  lemma HashedTwice(h: Hashes, input: seq<byte>)
    ensures AddrHash(h, input) == h.ripemd160(h.sha3_512(input))
  {
  }

  /** A record is read back exactly when, if it is an imported account's, the tag and the stream it
      carries are the ones its root gives; and the index is the recorded one either way. */
  lemma RestoreMeans(h: Hashes, record: AccountRecord)
    ensures record.DerivedRecord? ==>
              RestoreFromRecord(h, record)
              == Ok(AccountValue(record.tag, Derived(record.accountIndex, record.streamId), record.index))
    ensures record.ImportedRecord? ==>
              var r := RestoreFromRecord(h, record);
              if h.ripemd160(h.sha3_512(GeneratedFrom(h, record.root, record.firstKey))) != record.tag then
                r == Err(FirstAddressNotReproduced)
              else if StreamId(h, record.root) != record.streamId then r == Err(StreamIdNotReproduced)
              else
                && r.Ok? && r.value.tag == record.tag && r.value.index == record.index && r.value.key.Imported?
                && r.value.key.root == record.root && r.value.key.stream == record.streamId
  {
    hide PublicKey, StreamId, FromLeImage, AddrHash;
    if record.ImportedRecord? {
      HashedTwice(h, GeneratedFrom(h, record.root, record.firstKey));
    }
  }

  // ----- importing what another wallet stored -----

  /** Words 0 to 4 of a stored first key lie before the twelve bytes the tag overwrites. */
  lemma OverlayKeepsFixedWords(key: WotsKey, tag12: seq<byte>)
    requires |tag12| == LEGACY_TAG_LEN
    ensures var stored := LegacyAddressOf(key, tag12);
            && stored[..PK_LEN] == key.pk
            && stored[PK_LEN..PK_LEN + SEED_LEN] == key.pubSeed
            && FromLeImage(stored[PK_LEN + SEED_LEN..])[..5] == key.adrs[..5]
            && stored[2196..] == tag12
  {
    var stored := LegacyAddressOf(key, tag12);
    var image := LeImage(key.adrs);
    var head := image[..20];
    assert stored[PK_LEN + SEED_LEN..] == head + tag12;
    assert image == head + image[20..];
    PrefixOfImage(head, tag12);
    PrefixOfImage(head, image[20..]);
    WordsOfImage(key.adrs);
  }

  /** Importing any account's own seed and stored first address succeeds, whatever tag was written
      over address words 5 to 7, and gives the same tag and the same key stream. */
  lemma ImportOfDerived(h: Hashes, master: Block, index: u32, tag12: seq<byte>)
    requires |tag12| == LEGACY_TAG_LEN
    ensures var derived := DeriveAccount(h, master, index);
            var imported := Import(h, derived.seed, LegacyAddressOf(derived.first, tag12));
            && imported.Ok?
            && imported.value.tag == Derive(h, master, index).tag
            && imported.value.key.Imported? && imported.value.key.root == derived.seed
            && imported.value.key.stream == Derive(h, master, index).key.stream
            && imported.value.index == 0
  {
    hide PublicKey, AddrHash, StreamId;
    var derived := DeriveAccount(h, master, index);
    DeriveAccountKeepsItsSeed(h, master, index);
    hide DeriveAccount;
    OverlayKeepsFirst(derived.first, tag12);
  }

  lemma OverlayKeepsFirst(key: WotsKey, tag12: seq<byte>)
    requires |tag12| == LEGACY_TAG_LEN
    ensures var stored := LegacyAddressOf(key, tag12);
            var first := FirstFrom(stored[PK_LEN..]);
            && stored[..PK_LEN] == key.pk
            && first.pubSeed == key.pubSeed && first.adrs[..5] == key.adrs[..5]
  {
    OverlayKeepsFixedWords(key, tag12);
    var stored := LegacyAddressOf(key, tag12);
    assert stored[PK_LEN..][..SEED_LEN] == stored[PK_LEN..PK_LEN + SEED_LEN];
    assert stored[PK_LEN..][SEED_LEN..] == stored[PK_LEN + SEED_LEN..];
  }

  // ----- the keys a store derives -----

  datatype KeyAccess = Master(seed: Block) | StoredRoot

  datatype KeyError =
    | KeyAccessMismatch(kind: Kind)
    | DerivedTagNotReproduced(accountIndex: u32)
    | KeyStreamSharedWithImportedAccount
    | StreamNotReproduced

  /** The key of `a` at `position`, in a store whose imported roots are `roots`. */
  function KeyAt(h: Hashes, roots: set<Block>, a: AccountValue, position: u32,
                 access: KeyAccess): Result<WotsKey, KeyError> {
    match (a.key, access)
    case (Derived(_, _), StoredRoot) => Err(KeyAccessMismatch(DerivedKind))
    case (Imported(_, _, _), Master(_)) => Err(KeyAccessMismatch(ImportedKind))
    case (Derived(accountIndex, stream), Master(master)) =>
      var derived := DeriveAccount(h, master, accountIndex);
      if derived.tag != a.tag then Err(DerivedTagNotReproduced(accountIndex))
      else if derived.seed in roots then Err(KeyStreamSharedWithImportedAccount)
      else if StreamId(h, derived.seed) != stream then Err(StreamNotReproduced)
      else (match Rotation(position)
            case None => Ok(derived.first)
            case Some(rotation) => Ok(DeriveWotsKey(h, derived.seed, rotation)))
    case (Imported(root, first, _), StoredRoot) =>
      (match Rotation(position)
       case None => Ok(KeyFromComponents(h, root, first.pubSeed, first.adrs))
       case Some(rotation) => Ok(DeriveWotsKey(h, root, rotation)))
  }

  function AddressAt(h: Hashes, roots: set<Block>, a: AccountValue, position: u32,
                     access: KeyAccess): Result<Address, KeyError> {
    match KeyAt(h, roots, a, position, access)
    case Ok(key) => Ok(AddressOf(h, key, a.tag))
    case Err(e) => Err(e)
  }

  /** The seed every key of the account is drawn from, with this access to it. */
  function SeedFor(h: Hashes, a: AccountValue, access: KeyAccess): Option<Block> {
    match (a.key, access)
    case (Derived(accountIndex, _), Master(master)) => Some(DeriveAccount(h, master, accountIndex).seed)
    case (Imported(root, _, _), StoredRoot) => Some(root)
    case _ => None
  }

  /** The secret a seed gives for a position: the seed itself for the first key. */
  function SecretAt(h: Hashes, seed: Block, position: u32): Block {
    if position == 0 then seed else DeriveWotsKey(h, seed, position - 1).secret
  }

  /** The stream and the position name the key: whatever access it is reached by, the stream is the
      identifier of the seed the key is drawn from, and seed and position fix its secret, and past
      the first position the whole key. */
  lemma LabelNamesTheKey(h: Hashes, roots: set<Block>, a: AccountValue, position: u32, access: KeyAccess)
    requires Built(h, a) && KeyAt(h, roots, a, position, access).Ok?
    ensures SeedFor(h, a, access).Some?
    ensures var key, seed := KeyAt(h, roots, a, position, access).value, SeedFor(h, a, access).value;
            && a.key.stream == StreamId(h, seed)
            && key.secret == SecretAt(h, seed, position)
            && (position > 0 ==> key == DeriveWotsKey(h, seed, position - 1))
  {
    hide PublicKey, AddrHash, StreamId, DeriveWotsKey, ImportedParts, FirstBytes;
    if a.key.Derived? && access.Master? {
      DeriveAccountKeepsItsSeed(h, access.seed, a.key.accountIndex);
    }
    hide DeriveAccount;
  }

  /** What restore derives with no store at all. */
  function DerivedAddressAt(h: Hashes, master: Block, accountIndex: u32, position: u32): Address {
    var derived := DeriveAccount(h, master, accountIndex);
    match Rotation(position)
    case None => AddressOf(h, derived.first, derived.tag)
    case Some(rotation) => AddressOf(h, DeriveWotsKey(h, derived.seed, rotation), derived.tag)
  }

  /** Why a key is refused: the access is of the other kind; or, for a derived account, its tag is
      not the master's, or its seed is also an imported root, or its stream is not its seed's. */
  lemma KeyRefusals(h: Hashes, roots: set<Block>, a: AccountValue, position: u32, access: KeyAccess)
    ensures var r := KeyAt(h, roots, a, position, access);
            && (a.key.Imported? && access.StoredRoot? ==> r.Ok?)
            && (a.key.Imported? && access.Master? ==> r == Err(KeyAccessMismatch(ImportedKind)))
            && (a.key.Derived? && access.StoredRoot? ==> r == Err(KeyAccessMismatch(DerivedKind)))
            && (a.key.Derived? && access.Master? ==>
                  var derived := DeriveAccount(h, access.seed, a.key.accountIndex);
                  if derived.tag != a.tag then r == Err(DerivedTagNotReproduced(a.key.accountIndex))
                  else if derived.seed in roots then r == Err(KeyStreamSharedWithImportedAccount)
                  else if StreamId(h, derived.seed) != a.key.stream then r == Err(StreamNotReproduced)
                  else r.Ok?)
  {
    hide DeriveAccount, StreamId, DeriveWotsKey, KeyFromComponents;
  }

  /** A key is refused for the account, never for the position: if one position derives, all do,
      and otherwise all are refused alike. */
  lemma RefusalIgnoresPosition(h: Hashes, roots: set<Block>, a: AccountValue, p: u32, q: u32, access: KeyAccess)
    ensures AddressAt(h, roots, a, p, access).Ok? <==> AddressAt(h, roots, a, q, access).Ok?
    ensures AddressAt(h, roots, a, p, access).Err? ==>
              AddressAt(h, roots, a, q, access) == AddressAt(h, roots, a, p, access)
  {
    hide DeriveAccount, StreamId, AddressOf, DeriveWotsKey, KeyFromComponents;
  }

  /** The store derives for an account just what restore derived to find it, at every position,
      unless the store also holds that account's own seed as an imported root. */
  lemma StoreDerivesWhatRestoreScanned(h: Hashes, roots: set<Block>, master: Block, accountIndex: u32, position: u32,
                                       index: u32)
    ensures AddressAt(h, roots, Derive(h, master, accountIndex).(index := index), position, Master(master))
         == if DeriveAccount(h, master, accountIndex).seed in roots then Err(KeyStreamSharedWithImportedAccount)
            else Ok(DerivedAddressAt(h, master, accountIndex, position))
  {
    hide DeriveAccount, StreamId, AddrHash, DeriveWotsKey;
  }

  /** A derived account and its import hold the same keys: the same address at every position. */
  lemma ImportHoldsTheSameKeys(h: Hashes, master: Block, index: u32, tag12: seq<byte>, position: u32)
    requires |tag12| == LEGACY_TAG_LEN
    ensures var derived := DeriveAccount(h, master, index);
            var imported := Import(h, derived.seed, LegacyAddressOf(derived.first, tag12));
            && imported.Ok?
            && AddressAt(h, {derived.seed}, imported.value, position, StoredRoot)
               == Ok(DerivedAddressAt(h, master, index, position))
  {
    hide PublicKey, AddrHash, StreamId, DeriveWotsKey, Import, LegacyAddressOf;
    ImportOfDerived(h, master, index, tag12);
    var derived := DeriveAccount(h, master, index);
    DeriveAccountKeepsItsSeed(h, master, index);
    var imported := Import(h, derived.seed, LegacyAddressOf(derived.first, tag12)).value;
    ImportedFirst(h, derived.seed, derived.first, tag12);
    hide DeriveAccount;
    ImportedAddress(h, {derived.seed}, imported, position);
  }

  lemma ImportedAddress(h: Hashes, roots: set<Block>, a: AccountValue, position: u32)
    requires a.key.Imported?
    ensures AddressAt(h, roots, a, position, StoredRoot).Ok?
    ensures position == 0 ==>
              AddressAt(h, roots, a, position, StoredRoot).value
              == a.tag + AddrHash(h, PublicKey(h, a.key.root, a.key.first.pubSeed, a.key.first.adrs[..5]))
    ensures position > 0 ==>
              AddressAt(h, roots, a, position, StoredRoot).value
              == AddressOf(h, DeriveWotsKey(h, a.key.root, position - 1), a.tag)
  {
    hide PublicKey, AddrHash, DeriveWotsKey;
  }

  lemma ImportedFirst(h: Hashes, root: Block, key: WotsKey, tag12: seq<byte>)
    requires |tag12| == LEGACY_TAG_LEN
    requires Import(h, root, LegacyAddressOf(key, tag12)).Ok?
    ensures var first := Import(h, root, LegacyAddressOf(key, tag12)).value.key.first;
            first.pubSeed == key.pubSeed && first.adrs[..5] == key.adrs[..5]
  {
    OverlayKeepsFirst(key, tag12);
  }
}

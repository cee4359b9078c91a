/** Publication of an entry and its inclusion receipt
    (src/skill_native/transparency_log.py, `append`, `verify_receipt`, `_build_inclusion_receipt`). */
module LogReceipts {
  import opened Wrappers
  import opened Decimals
  import opened Hashing
  import opened CanonicalJson
  import opened LogEntries
  import opened LogText
  import opened Merkle
  import opened LogChain

  datatype Receipt = Receipt(
    logId: string,
    leafIndex: nat,
    entryDigest: Digest,
    leafHash: Digest,
    path: seq<PathNode>,
    checkpoint: Checkpoint,
    digest: Digest)

  // ----------------------------------------------------------- the hashed JSON text

  function CheckpointText(c: Checkpoint): string {
    "{\"checkpoint_digest\":" + WriteDigest(c.digest) + ",\"head_entry_digest\":" + WriteMaybe(c.head)
    + ",\"log_id\":\"" + c.logId + "\",\"root_hash\":" + WriteDigest(c.root)
    + ",\"schema_version\":\"1.0\",\"tree_size\":" + Decimal(c.treeSize) + "}"
  }

  function PathText(path: seq<PathNode>): string {
    if path == [] then ""
    else
      "{\"digest\":" + WriteDigest(path[0].digest)
      + ",\"side\":" + (if path[0].side == Left then "\"left\"" else "\"right\"") + "}"
      + (if |path| == 1 then "" else "," + PathText(path[1..]))
  }

  function ReceiptPayload(r: Receipt): string {
    "{\"checkpoint\":" + CheckpointText(r.checkpoint) + ",\"entry_digest\":" + WriteDigest(r.entryDigest)
    + ",\"leaf_hash\":" + WriteDigest(r.leafHash) + ",\"leaf_index\":" + Decimal(r.leafIndex)
    + ",\"log_id\":\"" + r.logId + "\",\"path\":[" + PathText(r.path) + "],\"schema_version\":\"1.0\"}"
  }

  /** The receipt validator. Its fold looks at the sides of the path, never at the leaf index. */
  predicate ValidReceipt(H: Hash, r: Receipt) {
    && IsName(r.logId)
    && ValidCheckpoint(H, r.checkpoint)
    && r.logId == r.checkpoint.logId
    && r.leafIndex < r.checkpoint.treeSize
    && r.leafHash == LeafHash(H, r.entryDigest)
    && Fold(H, r.leafHash, r.path) == r.checkpoint.root
    && r.digest == H(Codes(ReceiptPayload(r)))
  }

  function Sealed(H: Hash, r: Receipt): Receipt {
    r.(digest := H(Codes(ReceiptPayload(r))))
  }

  /** `_build_inclusion_receipt`. */
  function BuildReceipt(H: Hash, es: seq<Entry>, index: nat, c: Checkpoint): Receipt
    requires index < |es|
  {
    var d := es[index].digest;
    Sealed(H, Receipt(c.logId, index, d, LeafHash(H, d), MerklePath(H, Digests(es), index), c, d))
  }

  /** A built receipt passes the validator: the built path reaches the checkpoint root. */
  lemma BuiltReceiptValid(H: Hash, logId: string, es: seq<Entry>, index: nat)
    requires IsName(logId) && index < |es|
    ensures ValidReceipt(H, BuildReceipt(H, es, index, BuildCheckpoint(H, logId, es)))
  {
    PathReachesRoot(H, Digests(es), index);
    hide IsName, ValidCheckpoint, MerkleRoot, MerklePath, Fold, LeafHash, CheckpointText, PathText, CheckpointPayload;
  }

  /** `verify_receipt`: no fault means accepted. The checkpoint file is not consulted. */
  function ReceiptFault(H: Hash, logId: string, raw: string, r: Receipt): Option<LogError> {
    if !ValidReceipt(H, r) then Some(InvalidReceipt)
    else if r.logId != logId then Some(ForeignReceipt)
    else match ParseLog(H, Translate(raw))
      case Failure(error) => Some(error)
      case Success(es) =>
        if r.checkpoint.treeSize > |es| then Some(ReceiptExceedsLog)
        else
          var prefix := es[..r.checkpoint.treeSize];
          if ChainFault(logId, prefix, 0).Some? then ChainFault(logId, prefix, 0)
          else if BuildCheckpoint(H, logId, prefix) != r.checkpoint then Some(ReceiptCheckpointMismatch)
          else if prefix[r.leafIndex].digest != r.entryDigest then Some(ReceiptEntryMismatch)
          else if BuildReceipt(H, prefix, r.leafIndex, r.checkpoint) != r then Some(ReceiptPathMismatch)
          else None
  }

  /** The receipt built for a position of a prefix of a log. */
  predicate IssuedBy(H: Hash, logId: string, es: seq<Entry>, r: Receipt) {
    && r.leafIndex < r.checkpoint.treeSize <= |es|
    && var prefix := es[..r.checkpoint.treeSize];
       r == BuildReceipt(H, prefix, r.leafIndex, BuildCheckpoint(H, logId, prefix))
  }

  lemma BuiltReceiptFields(H: Hash, es: seq<Entry>, index: nat, c: Checkpoint)
    requires index < |es|
    ensures var r := BuildReceipt(H, es, index, c);
            r.logId == c.logId && r.leafIndex == index && r.entryDigest == es[index].digest && r.checkpoint == c
  {
    hide ReceiptPayload, MerklePath;
  }

  lemma BuiltCheckpointFields(H: Hash, logId: string, es: seq<Entry>)
    ensures var c := BuildCheckpoint(H, logId, es);
            && c.logId == logId && c.treeSize == |es| && c.root == MerkleRoot(H, Digests(es))
            && c.head == HeadDigest(es)
  {
    hide CheckpointPayload, MerkleRoot;
  }

  /** A receipt is accepted exactly when the log is readable, starts with a valid chain of the
      checkpoint's size, and the receipt is the one built for its leaf index in that chain. */
  lemma ReceiptExact(H: Hash, logId: string, raw: string, r: Receipt)
    ensures ReceiptFault(H, logId, raw, r) == None <==>
            && IsName(logId)
            && ParseLog(H, Translate(raw)).Success?
            && var es := ParseLog(H, Translate(raw)).value;
               IssuedBy(H, logId, es, r) && ValidChain(logId, es[..r.checkpoint.treeSize])
  {
    hide ParseLog, Translate, IsName, BuildCheckpoint, BuildReceipt, ValidCheckpoint, Fold, LeafHash, ReceiptPayload;
    var parsed := ParseLog(H, Translate(raw));
    if IsName(logId) && parsed.Success? && IssuedBy(H, logId, parsed.value, r) {
      var prefix := parsed.value[..r.checkpoint.treeSize];
      BuiltReceiptValid(H, logId, prefix, r.leafIndex);
      BuiltReceiptFields(H, prefix, r.leafIndex, BuildCheckpoint(H, logId, prefix));
      BuiltCheckpointFields(H, logId, prefix);
    }
  }

  /** An accepted receipt pins history: a receipt issued for the last entry of L, or any other of
      its entries, is accepted by a later log only if that log starts with L, and then the entry
      at its leaf index is the entry of L there. */
  lemma ReceiptPinsHistory(H: Hash, logId: string, L: seq<Entry>, index: nat, raw: string)
    requires Published(H, logId, L) && index < |L|
    requires CollisionFree(H, LogInputs(H, L) + LogInputs(H, Prefix(EntriesOf(H, raw), |L|)))
    requires ReceiptFault(H, logId, raw, BuildReceipt(H, L, index, BuildCheckpoint(H, logId, L))) == None
    ensures L <= EntriesOf(H, raw) && EntriesOf(H, raw)[index] == L[index]
  {
    hide ParseLog, Translate, ValidEntry, ValidChain, IsName, BuildCheckpoint, BuildReceipt, CollisionFree,
         LogInputs, ReceiptFault;
    var c := BuildCheckpoint(H, logId, L);
    var r := BuildReceipt(H, L, index, c);
    ReceiptExact(H, logId, raw, r);
    CanonicalTextOfParsedLog(H, Translate(raw));
    BuiltReceiptFields(H, L, index, c);
    BuiltCheckpointFields(H, logId, L);
    var prefix := EntriesOf(H, raw)[..|L|];
    BuiltReceiptFields(H, prefix, index, BuildCheckpoint(H, logId, prefix));
    BuiltCheckpointFields(H, logId, prefix);
    hide MerkleRoot;
    RootFixesLog(H, L, prefix);
  }

  function Prefix(es: seq<Entry>, n: nat): seq<Entry> {
    if n <= |es| then es[..n] else es
  }

  // -------------------------------------------------------------------- appending

  /** What the attestation check hands over for publication. */
  datatype Publication = Publication(
    envelope: Digest,
    statement: Digest,
    bundle: Digest,
    keyId: Digest,
    verification: Digest)

  datatype LogState = LogState(raw: string, file: CheckpointFile)

  function NewEntry(H: Hash, logId: string, es: seq<Entry>, pub: Publication): Entry {
    var e := Entry(logId, |es|, HeadDigest(es), pub.envelope, pub.statement, pub.bundle, [pub.keyId],
                   pub.verification, pub.envelope);
    e.(digest := H(EntryInput(e)))
  }

  /** `append`, run to its end by one process. */
  function AppendTo(H: Hash, logId: string, s: LogState, pub: Publication): Result<(LogState, Receipt), LogError> {
    match VerifyUnlocked(H, logId, s.raw, s.file, true)
    case Failure(error) => Failure(error)
    case Success((es, _)) =>
      if EnvelopeSeen(es, pub.envelope) then Failure(DuplicateEnvelope)
      else
        var e := NewEntry(H, logId, es, pub);
        var c := BuildCheckpoint(H, logId, es + [e]);
        Success((LogState(s.raw + LineText(e), Holds(c)), BuildReceipt(H, es + [e], |es|, c)))
  }

  /** The state after publishing the entries `es` and nothing else. */
  predicate Consistent(H: Hash, logId: string, s: LogState, es: seq<Entry>) {
    && Published(H, logId, es)
    && Translate(s.raw) == CanonicalText(es)
    && (s.file == Holds(BuildCheckpoint(H, logId, es)) || (s.file == Missing && es == []))
  }

  /** A log that was never written to is consistent with no entries. */
  lemma EmptyConsistent(H: Hash, logId: string)
    requires IsName(logId)
    ensures Consistent(H, logId, LogState("", Missing), [])
    ensures forall es :: Consistent(H, logId, LogState("", Missing), es) ==> es == []
  {
    ParseLogExact(H, "", []);
    forall es | Consistent(H, logId, LogState("", Missing), es) ensures es == [] {
      ParseLogExact(H, "", es);
    }
  }

  lemma NewEntryContinues(H: Hash, logId: string, es: seq<Entry>, pub: Publication)
    requires Published(H, logId, es) && !EnvelopeSeen(es, pub.envelope)
    ensures var e := NewEntry(H, logId, es, pub);
            ValidEntry(H, e) && Continues(logId, es, e) && Published(H, logId, es + [e])
  {
    var e := NewEntry(H, logId, es, pub);
    assert EntryInput(e) == EntryInput(e.(digest := pub.envelope));
    assert ValidEntry(H, e) by {
      hide PayloadText, IsName;
    }
    hide ValidEntry, IsName, EnvelopeSeen;
    PublishedSnoc(H, logId, es, e);
  }

  /** Reading the raw text after all, or part, of a new line was appended to it. */
  lemma AppendedText(H: Hash, logId: string, raw: string, es: seq<Entry>, e: Entry)
    requires Translate(raw) == CanonicalText(es) && IsName(e.logId)
    ensures Translate(raw + LineText(e)) == CanonicalText(es + [e])
  {
    TranslateAppended(raw, e, |LineText(e)|);
    CanonicalTextSnoc(es, e);
    hide LineText, CanonicalText, Translate;
    assert LineText(e)[..|LineText(e)|] == LineText(e);
  }

  /** Whatever a consistent log holds, the receipts of all its prefixes are accepted. */
  lemma PrefixReceipts(H: Hash, logId: string, raw: string, es: seq<Entry>, n: nat, index: nat)
    requires Published(H, logId, es) && Translate(raw) == CanonicalText(es) && index < n <= |es|
    ensures ReceiptFault(H, logId, raw, BuildReceipt(H, es[..n], index, BuildCheckpoint(H, logId, es[..n]))) == None
  {
    hide ParseLog, Translate, CanonicalText, ValidEntry, ReceiptFault, BuildReceipt, BuildCheckpoint, IsName, Continues;
    var c := BuildCheckpoint(H, logId, es[..n]);
    var r := BuildReceipt(H, es[..n], index, c);
    ParseLogExact(H, Translate(raw), es);
    ValidChainPrefix(logId, es, n);
    BuiltReceiptFields(H, es[..n], index, c);
    BuiltCheckpointFields(H, logId, es[..n]);
    ReceiptExact(H, logId, raw, r);
  }

  /** A whole new line with the checkpoint that goes with it. */
  lemma ReplacedConsistent(H: Hash, logId: string, raw: string, file: CheckpointFile, es: seq<Entry>, e: Entry)
    requires Consistent(H, logId, LogState(raw, file), es) && ValidEntry(H, e) && Continues(logId, es, e)
    ensures Consistent(H, logId, LogState(raw + LineText(e), Holds(BuildCheckpoint(H, logId, es + [e]))), es + [e])
  {
    assert IsName(e.logId);
    hide ValidEntry, Continues, ValidChain, AllValid, Translate, CanonicalText, LineText, BuildCheckpoint, IsName;
    AppendedText(H, logId, raw, es, e);
    PublishedSnoc(H, logId, es, e);
  }

  lemma PublishedSnoc(H: Hash, logId: string, es: seq<Entry>, e: Entry)
    requires Published(H, logId, es) && ValidEntry(H, e) && Continues(logId, es, e)
    ensures Published(H, logId, es + [e])
  {
    hide ValidEntry, Continues, IsName;
    ValidChainSnoc(logId, es, e);
  }

  lemma ConsistentParts(H: Hash, logId: string, s: LogState, es: seq<Entry>)
    requires Consistent(H, logId, s, es)
    ensures Published(H, logId, es) && Translate(s.raw) == CanonicalText(es)
  {
    hide Published, Translate, CanonicalText, BuildCheckpoint;
  }

  lemma AppendConsistent(H: Hash, logId: string, s: LogState, es: seq<Entry>, pub: Publication)
    requires Consistent(H, logId, s, es) && !EnvelopeSeen(es, pub.envelope)
    ensures var e := NewEntry(H, logId, es, pub);
            var c := BuildCheckpoint(H, logId, es + [e]);
            && Consistent(H, logId, LogState(s.raw + LineText(e), Holds(c)), es + [e])
            && ReceiptFault(H, logId, s.raw + LineText(e), BuildReceipt(H, es + [e], |es|, c)) == None
  {
    var e := NewEntry(H, logId, es, pub);
    var es' := es + [e];
    hide *;
    ConsistentParts(H, logId, s, es);
    NewEntryContinues(H, logId, es, pub);
    ReplacedConsistent(H, logId, s.raw, s.file, es, e);
    ConsistentParts(H, logId, LogState(s.raw + LineText(e), Holds(BuildCheckpoint(H, logId, es'))), es');
    PrefixReceipts(H, logId, s.raw + LineText(e), es', |es'|, |es|);
    assert es'[..|es'|] == es';
  }

  /** What a successful append leaves behind: the same log with one more entry, the checkpoint of
      exactly that log, and a receipt which that log accepts. */
  lemma AppendSucceeds(H: Hash, logId: string, s: LogState, es: seq<Entry>, pub: Publication)
    requires Consistent(H, logId, s, es) && !EnvelopeSeen(es, pub.envelope)
    ensures AppendTo(H, logId, s, pub).Success?
    ensures var e := NewEntry(H, logId, es, pub);
            var (s', r) := AppendTo(H, logId, s, pub).value;
            && s'.raw == s.raw + LineText(e)
            && s'.file == Holds(BuildCheckpoint(H, logId, es + [e]))
            && Consistent(H, logId, s', es + [e])
            && r == BuildReceipt(H, es + [e], |es|, BuildCheckpoint(H, logId, es + [e]))
            && ReceiptFault(H, logId, s'.raw, r) == None
  {
    hide VerifyUnlocked, Published, EnvelopeSeen, NewEntry, LineText, BuildCheckpoint, BuildReceipt, ReceiptFault,
         Translate, CanonicalText;
    VerifyExact(H, logId, s.raw, s.file, true, es, BuildCheckpoint(H, logId, es));
    AppendConsistent(H, logId, s, es, pub);
  }

  /** An append succeeds exactly when the log and checkpoint are consistent with some list of
      entries, none of which has the envelope being published. */
  lemma AppendExact(H: Hash, logId: string, s: LogState, pub: Publication)
    ensures AppendTo(H, logId, s, pub).Success? <==>
            exists es :: Consistent(H, logId, s, es) && !EnvelopeSeen(es, pub.envelope)
  {
    hide VerifyUnlocked, Published, EnvelopeSeen, NewEntry, LineText, BuildCheckpoint, BuildReceipt, ReceiptFault,
         Translate, CanonicalText;
    var v := VerifyUnlocked(H, logId, s.raw, s.file, true);
    if v.Success? {
      VerifyExact(H, logId, s.raw, s.file, true, v.value.0, v.value.1);
      assert Consistent(H, logId, s, v.value.0);
    }
    if es :| Consistent(H, logId, s, es) && !EnvelopeSeen(es, pub.envelope) {
      AppendSucceeds(H, logId, s, es, pub);
    }
  }

  lemma ConsistentUnique(H: Hash, logId: string, s: LogState, a: seq<Entry>, b: seq<Entry>)
    requires Consistent(H, logId, s, a) && Consistent(H, logId, s, b)
    ensures a == b
  {
    hide ParseLog, ValidEntry, CanonicalText, Translate, BuildCheckpoint, IsName, Continues;
    ParseLogExact(H, Translate(s.raw), a);
    ParseLogExact(H, Translate(s.raw), b);
  }

  /** One attempt to append; a refused one leaves the state as it was. */
  function TryAppend(H: Hash, logId: string, s: LogState, pub: Publication): LogState {
    match AppendTo(H, logId, s, pub)
    case Success((s', _)) => s'
    case Failure(_) => s
  }

  function AppendAll(H: Hash, logId: string, s: LogState, pubs: seq<Publication>): LogState
    decreases |pubs|
  {
    hide TryAppend;
    if pubs == [] then s else AppendAll(H, logId, TryAppend(H, logId, s, pubs[0]), pubs[1..])
  }

  lemma TryAppendExtends(H: Hash, logId: string, s: LogState, es: seq<Entry>, pub: Publication)
    returns (later: seq<Entry>)
    requires Consistent(H, logId, s, es)
    ensures later == (if EnvelopeSeen(es, pub.envelope) then es else es + [NewEntry(H, logId, es, pub)])
    ensures Consistent(H, logId, TryAppend(H, logId, s, pub), later) && s.raw <= TryAppend(H, logId, s, pub).raw
  {
    hide Consistent, NewEntry, EnvelopeSeen, LineText, ReceiptFault, AppendTo, BuildReceipt, BuildCheckpoint;
    if EnvelopeSeen(es, pub.envelope) {
      later := es;
      AppendExact(H, logId, s, pub);
      forall es' | Consistent(H, logId, s, es') ensures es' == es {
        ConsistentUnique(H, logId, s, es, es');
      }
    } else {
      later := es + [NewEntry(H, logId, es, pub)];
      AppendSucceeds(H, logId, s, es, pub);
    }
  }

  /** A run of appends only adds entries, and keeps the log consistent. */
  lemma {:induction false} AppendAllExtends(H: Hash, logId: string, s: LogState, es: seq<Entry>, pubs: seq<Publication>)
    returns (later: seq<Entry>)
    requires Consistent(H, logId, s, es)
    ensures es <= later && Consistent(H, logId, AppendAll(H, logId, s, pubs), later)
    ensures s.raw <= AppendAll(H, logId, s, pubs).raw
    decreases |pubs|
  {
    hide Consistent, NewEntry, EnvelopeSeen, TryAppend;
    later := es;
    if pubs != [] {
      var next := TryAppendExtends(H, logId, s, es, pubs[0]);
      later := AppendAllExtends(H, logId, TryAppend(H, logId, s, pubs[0]), next, pubs[1..]);
    }
  }

  /** Receipt permanence: the receipt an append returns is accepted, unchanged, after any later
      run of appends. */
  lemma ReceiptPermanence(H: Hash, logId: string, s: LogState, pub: Publication, pubs: seq<Publication>)
    requires AppendTo(H, logId, s, pub).Success?
    ensures var (s', r) := AppendTo(H, logId, s, pub).value;
            ReceiptFault(H, logId, AppendAll(H, logId, s', pubs).raw, r) == None
  {
    hide NewEntry, EnvelopeSeen, LineText, ReceiptFault, AppendTo, BuildReceipt, BuildCheckpoint, AppendAll,
         Translate, CanonicalText, Published;
    AppendExact(H, logId, s, pub);
    var es :| Consistent(H, logId, s, es) && !EnvelopeSeen(es, pub.envelope);
    AppendSucceeds(H, logId, s, es, pub);
    var s' := AppendTo(H, logId, s, pub).value.0;
    var es' := es + [NewEntry(H, logId, es, pub)];
    var later := AppendAllExtends(H, logId, s', es', pubs);
    assert later[..|es'|] == es';
    PrefixReceipts(H, logId, AppendAll(H, logId, s', pubs).raw, later, |es'|, |es|);
  }
}

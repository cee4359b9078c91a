/** The hash chain, the checkpoint over it and what a checkpoint proves about the log
    (src/skill_native/transparency_log.py). */
module LogChain {
  import opened Wrappers
  import opened Hashing
  import opened CanonicalJson
  import opened LogEntries
  import opened LogText
  import opened Merkle

  // -------------------------------------------------------------------- the chain

  predicate EnvelopeSeen(es: seq<Entry>, envelope: Digest) {
    exists j :: 0 <= j < |es| && es[j].envelope == envelope
  }

  function HeadDigest(es: seq<Entry>): Option<Digest> {
    if es == [] then None else Some(es[|es| - 1].digest)
  }

  /** Entry i continues the entries before it. */
  predicate Continues(logId: string, before: seq<Entry>, e: Entry) {
    && e.logId == logId
    && e.sequence == |before|
    && e.previous == HeadDigest(before)
    && !EnvelopeSeen(before, e.envelope)
  }

  predicate ValidChain(logId: string, es: seq<Entry>) {
    forall i :: 0 <= i < |es| ==> Continues(logId, es[..i], es[i])
  }

  function EntryFault(logId: string, before: seq<Entry>, e: Entry): (fault: Option<LogError>)
    ensures fault == None <==> Continues(logId, before, e)
  {
    if e.logId != logId then Some(ForeignEntry)
    else if e.sequence != |before| then Some(SequenceBroken)
    else if e.previous != HeadDigest(before) then Some(ChainBroken)
    else if EnvelopeSeen(before, e.envelope) then Some(DuplicateEnvelope)
    else None
  }

  /** The fault of the first entry, from position i on, that does not continue the chain. */
  function ChainFault(logId: string, es: seq<Entry>, i: nat): (fault: Option<LogError>)
    requires i <= |es|
    ensures fault == None <==> forall k :: i <= k < |es| ==> Continues(logId, es[..k], es[k])
    decreases |es| - i
  {
    if i == |es| then None
    else if EntryFault(logId, es[..i], es[i]).Some? then EntryFault(logId, es[..i], es[i])
    else ChainFault(logId, es, i + 1)
  }

  lemma SeenBefore(es: seq<Entry>, i: nat, envelope: Digest)
    requires i <= |es|
    ensures EnvelopeSeen(es[..i], envelope) <==> envelope in set j | 0 <= j < i :: es[j].envelope
  {
    assert forall j :: 0 <= j < i ==> es[..i][j] == es[j];
  }

  lemma NextHead(es: seq<Entry>, i: nat)
    requires i < |es|
    ensures HeadDigest(es[..i + 1]) == Some(es[i].digest)
  {
  }

  /** `_validate_entry_chain`: one pass with a set of the envelopes seen and the previous digest. */
  method ValidateEntryChain(logId: string, es: seq<Entry>) returns (fault: Option<LogError>)
    ensures fault == ChainFault(logId, es, 0)
    ensures fault == None <==> ValidChain(logId, es)
  {
    var envelopes: set<Digest> := {};
    var previous: Option<Digest> := None;
    for i := 0 to |es|
      invariant ChainFault(logId, es, i) == ChainFault(logId, es, 0)
      invariant envelopes == set j | 0 <= j < i :: es[j].envelope
      invariant previous == HeadDigest(es[..i])
    {
      var e := es[i];
      SeenBefore(es, i, e.envelope);
      NextHead(es, i);
      hide EnvelopeSeen, HeadDigest, Continues;
      if e.logId != logId {
        return Some(ForeignEntry);
      } else if e.sequence != i {
        return Some(SequenceBroken);
      } else if e.previous != previous {
        return Some(ChainBroken);
      } else if e.envelope in envelopes {
        return Some(DuplicateEnvelope);
      }
      envelopes := envelopes + {e.envelope};
      previous := Some(e.digest);
    }
    return None;
  }

  lemma ValidChainPrefix(logId: string, es: seq<Entry>, n: nat)
    requires ValidChain(logId, es) && n <= |es|
    ensures ValidChain(logId, es[..n])
  {
    forall i | 0 <= i < n ensures Continues(logId, es[..n][..i], es[..n][i]) {
      assert es[..n][..i] == es[..i];
    }
  }

  lemma ValidChainSnoc(logId: string, es: seq<Entry>, e: Entry)
    requires ValidChain(logId, es) && Continues(logId, es, e)
    ensures ValidChain(logId, es + [e])
  {
    forall i | 0 <= i < |es| + 1 ensures Continues(logId, (es + [e])[..i], (es + [e])[i]) {
      assert (es + [e])[..i] == es[..i];
      assert es[..|es|] == es;
    }
  }

  // ------------------------------------------------------------------- checkpoints

  datatype Checkpoint = Checkpoint(
    logId: string,
    treeSize: nat,
    root: Digest,
    head: Option<Digest>,
    digest: Digest)

  /** The checkpoint file: absent, not parseable, or holding some checkpoint record. */
  datatype CheckpointFile = Missing | Unreadable | Holds(checkpoint: Checkpoint)

  const HEAD_ENTRY: Lead := "{\"head_entry_digest\":"
  const ROOT_HASH: Lead := ",\"root_hash\":"
  const TREE_SIZE: Lead := ",\"schema_version\":\"1.0\",\"tree_size\":"
  const CHECKPOINT := Layout([
    Field(HEAD_ENTRY, MaybeDigestKind),
    Field(LOG_ID, NameKind),
    Field(ROOT_HASH, DigestKind),
    Field(TREE_SIZE, NumberKind)], CLOSING)

  function CheckpointPayload(logId: string, treeSize: nat, root: Digest, head: Option<Digest>): string {
    Write(CHECKPOINT, [MaybeDigest(head), Name(logId), ADigest(root), Number(treeSize)])
  }

  predicate ValidCheckpoint(H: Hash, c: Checkpoint) {
    && IsName(c.logId)
    && (c.treeSize == 0 <==> c.head == None)
    && c.digest == H(Codes(CheckpointPayload(c.logId, c.treeSize, c.root, c.head)))
  }

  function Digests(es: seq<Entry>): (ds: seq<Digest>)
    ensures |ds| == |es| && forall i :: 0 <= i < |es| ==> ds[i] == es[i].digest
  {
    seq(|es|, i requires 0 <= i < |es| => es[i].digest)
  }

  function BuildCheckpoint(H: Hash, logId: string, es: seq<Entry>): (c: Checkpoint)
    ensures IsName(logId) ==> ValidCheckpoint(H, c)
  {
    var root := MerkleRoot(H, Digests(es));
    Checkpoint(logId, |es|, root, HeadDigest(es),
               H(Codes(CheckpointPayload(logId, |es|, root, HeadDigest(es)))))
  }

  /** The part of `_verify_unlocked` that follows the reading of the log. */
  function Judge(H: Hash, logId: string, read: Result<seq<Entry>, LogError>, file: CheckpointFile, allowMissing: bool)
    : Result<(seq<Entry>, Checkpoint), LogError>
  {
    match read
    case Failure(error) => Failure(error)
    case Success(es) =>
      if ChainFault(logId, es, 0).Some? then Failure(ChainFault(logId, es, 0).value)
      else if !IsName(logId) then Failure(InvalidLogId)
      else
        var expected := BuildCheckpoint(H, logId, es);
        match file
        case Missing =>
          if es != [] || !allowMissing then Failure(CheckpointMissing) else Success((es, expected))
        case Unreadable => Failure(CheckpointInvalid)
        case Holds(observed) =>
          if !ValidCheckpoint(H, observed) then Failure(CheckpointInvalid)
          else if observed != expected then Failure(CheckpointMismatch)
          else Success((es, observed))
  }

  /** `_verify_unlocked`. */
  function VerifyUnlocked(H: Hash, logId: string, raw: string, file: CheckpointFile, allowMissing: bool)
    : Result<(seq<Entry>, Checkpoint), LogError>
  {
    Judge(H, logId, ParseLog(H, Translate(raw)), file, allowMissing)
  }

  /** The log is readable, chained, and its text is exactly the lines of these entries. */
  predicate Published(H: Hash, logId: string, es: seq<Entry>) {
    IsName(logId) && AllValid(H, es) && ValidChain(logId, es)
  }

  /** Verification accepts exactly the canonical text of a valid chain together with its own checkpoint. */
  lemma VerifyExact(H: Hash, logId: string, raw: string, file: CheckpointFile, allowMissing: bool,
                    es: seq<Entry>, c: Checkpoint)
    ensures VerifyUnlocked(H, logId, raw, file, allowMissing) == Success((es, c)) <==>
            && Published(H, logId, es) && Translate(raw) == CanonicalText(es)
            && c == BuildCheckpoint(H, logId, es)
            && (file == Holds(c) || (file == Missing && es == [] && allowMissing))
  {
    ParseLogExact(H, Translate(raw), es);
    hide ParseLog, AllValid, CanonicalText, BuildCheckpoint, ValidCheckpoint;
  }

  // -------------------------------------------------------------- tamper evidence

  /** The byte strings hashed into the entry digests of a log. */
  function EntryInputs(es: seq<Entry>): set<seq<int>> {
    set i | 0 <= i < |es| :: EntryInput(es[i])
  }

  /** Every byte string hashed while building a log and its root. */
  function LogInputs(H: Hash, es: seq<Entry>): set<seq<int>> {
    EntryInputs(es) + RootInputs(H, Digests(es))
  }

  lemma SameEntry(H: Hash, inputs: set<seq<int>>, a: Entry, b: Entry)
    requires CollisionFree(H, inputs) && EntryInput(a) in inputs && EntryInput(b) in inputs
    requires ValidEntry(H, a) && ValidEntry(H, b) && a.digest == b.digest
    ensures a == b
  {
    SameInput(H, inputs, EntryInput(a), EntryInput(b));
    PayloadInjective(a, b);
  }

  /** The Merkle root fixes the whole log, its length included. */
  lemma RootFixesLog(H: Hash, a: seq<Entry>, b: seq<Entry>)
    requires AllValid(H, a) && AllValid(H, b)
    requires CollisionFree(H, LogInputs(H, a) + LogInputs(H, b))
    requires MerkleRoot(H, Digests(a)) == MerkleRoot(H, Digests(b))
    ensures a == b
  {
    var inputs := LogInputs(H, a) + LogInputs(H, b);
    hide CollisionFree, RootInputs, MerkleRoot, ValidEntry, EntryInput;
    CollisionFreeSubset(H, RootInputs(H, Digests(a)) + RootInputs(H, Digests(b)), inputs);
    RootInjective(H, Digests(a), Digests(b));
    forall i | 0 <= i < |a| ensures a[i] == b[i] {
      assert Digests(a)[i] == Digests(b)[i];
      SameEntry(H, inputs, a[i], b[i]);
    }
  }

  /** The last entry of a published chain, and the chain before it. */
  lemma LastEntry(H: Hash, logId: string, es: seq<Entry>)
    requires Published(H, logId, es) && es != []
    ensures var m := |es| - 1;
            && ValidEntry(H, es[m]) && HeadDigest(es) == Some(es[m].digest)
            && es[m].previous == HeadDigest(es[..m])
            && Published(H, logId, es[..m])
            && EntryInput(es[m]) in EntryInputs(es) && EntryInputs(es[..m]) <= EntryInputs(es)
  {
    var m := |es| - 1;
    assert Continues(logId, es[..m], es[m]);
    ValidChainPrefix(logId, es, m);
    hide ValidEntry, EntryInput, EnvelopeSeen, IsName;
  }

  /** The head digest alone fixes the whole chain. */
  lemma {:induction false} HeadFixesLog(H: Hash, logId: string, a: seq<Entry>, b: seq<Entry>)
    requires Published(H, logId, a) && Published(H, logId, b)
    requires CollisionFree(H, EntryInputs(a) + EntryInputs(b))
    requires HeadDigest(a) == HeadDigest(b)
    ensures a == b
  {
    NoHead(a);
    NoHead(b);
    hide *;
    if a != [] {
      var m, n := |a| - 1, |b| - 1;
      LastEntry(H, logId, a);
      LastEntry(H, logId, b);
      SameEntry(H, EntryInputs(a) + EntryInputs(b), a[m], b[n]);
      CollisionFreeSubset(H, EntryInputs(a[..m]) + EntryInputs(b[..n]), EntryInputs(a) + EntryInputs(b));
      HeadFixesLog(H, logId, a[..m], b[..n]);
      assert a == a[..m] + [a[m]] && b == b[..n] + [b[n]];
    }
  }

  lemma NoHead(es: seq<Entry>)
    ensures HeadDigest(es) == None <==> es == []
  {
  }

  function EntriesOf(H: Hash, raw: string): seq<Entry> {
    var r := ParseLog(H, Translate(raw));
    if r.Success? then r.value else []
  }

  /** Tamper evidence: against the checkpoint built from the entries L, verification accepts a log
      exactly when its text is that of L; then it returns L. */
  lemma CheckpointFixesLog(H: Hash, logId: string, L: seq<Entry>, raw: string, allowMissing: bool)
    requires Published(H, logId, L)
    requires CollisionFree(H, LogInputs(H, L) + LogInputs(H, EntriesOf(H, raw)))
    ensures var file := Holds(BuildCheckpoint(H, logId, L));
            var r := VerifyUnlocked(H, logId, raw, file, allowMissing);
            && (r.Success? <==> Translate(raw) == CanonicalText(L))
            && (r.Success? ==> r.value == (L, file.checkpoint))
  {
    var c := BuildCheckpoint(H, logId, L);
    var r := VerifyUnlocked(H, logId, raw, Holds(c), allowMissing);
    hide ParseLog, Translate, CanonicalText, ValidEntry, ValidChain, CollisionFree, LogInputs, VerifyUnlocked,
         MerkleRoot;
    VerifyExact(H, logId, raw, Holds(c), allowMissing, L, c);
    if r.Success? {
      var (es, observed) := r.value;
      VerifyExact(H, logId, raw, Holds(c), allowMissing, es, observed);
      ParseLogExact(H, Translate(raw), es);
      assert es == EntriesOf(H, raw) && c == BuildCheckpoint(H, logId, es);
      RootFixesLog(H, L, es);
    }
  }
}

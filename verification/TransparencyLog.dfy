/** The log object: its text, its checkpoint file, and the operations on them
    (src/skill_native/transparency_log.py, class `TransparencyLog`). Each method is one call run
    to its end under the lock; LogProtocol models processes that interleave and crash. */
module TransparencyLog {
  import opened Wrappers
  import opened Hashing
  import opened LogEntries
  import opened LogText
  import opened LogChain
  import opened LogReceipts
  import opened Merkle
  import opened CanonicalJson

  class Log {
    const H: Hash
    const logId: string
    var raw: string
    var file: CheckpointFile

    constructor (H: Hash, logId: string)
      ensures this.H == H && this.logId == logId && State() == LogState("", Missing)
    {
      this.H, this.logId := H, logId;
      raw, file := "", Missing;
    }

    function State(): LogState
      reads this
    {
      LogState(raw, file)
    }

    method Check(allowMissing: bool) returns (r: Result<(seq<Entry>, Checkpoint), LogError>)
      ensures r == VerifyUnlocked(H, logId, raw, file, allowMissing)
    {
      hide ParseLog, ChainFault, ValidCheckpoint, IsName, CheckpointPayload, MerkleRoot;
      var read := ReadEntries(H, raw);
      if read.Failure? {
        return Failure(read.error);
      }
      var entries := read.value;
      var fault := ValidateEntryChain(logId, entries);
      if fault.Some? {
        return Failure(fault.value);
      }
      if !IsName(logId) {
        return Failure(InvalidLogId);
      }
      var expected := BuildCheckpoint(H, logId, entries);
      match file {
        case Missing =>
          if entries != [] || !allowMissing {
            return Failure(CheckpointMissing);
          }
          return Success((entries, expected));
        case Unreadable =>
          return Failure(CheckpointInvalid);
        case Holds(observed) =>
          if !ValidCheckpoint(H, observed) {
            return Failure(CheckpointInvalid);
          }
          if observed != expected {
            return Failure(CheckpointMismatch);
          }
          return Success((entries, observed));
      }
    }

    /** `append`. `attested` is what the attestation check returned, nothing if it refused. */
    method Append(attested: Option<Publication>) returns (r: Result<Receipt, LogError>)
      modifies this
      ensures attested == None ==> r == Failure(NotAttested)
      ensures attested.Some? ==>
                match AppendTo(H, logId, old(State()), attested.value)
                case Success((s, receipt)) => r == Success(receipt) && State() == s
                case Failure(error) => r == Failure(error)
      ensures r.Failure? ==> State() == old(State())
      ensures r.Success? ==>
                && VerifyUnlocked(H, logId, raw, file, false).Success?
                && ReceiptFault(H, logId, raw, r.value) == None
    {
      hide VerifyUnlocked, NewEntry, BuildCheckpoint, BuildReceipt, LineText, ReceiptFault, Translate, CanonicalText,
           Published;
      if attested == None {
        return Failure(NotAttested);
      }
      var pub := attested.value;
      var verified := Check(true);
      if verified.Failure? {
        return Failure(verified.error);
      }
      var entries := verified.value.0;
      for i := 0 to |entries|
        invariant forall j :: 0 <= j < i ==> entries[j].envelope != pub.envelope
        invariant State() == old(State())
      {
        if entries[i].envelope == pub.envelope {
          return Failure(DuplicateEnvelope);
        }
      }
      var entry := NewEntry(H, logId, entries, pub);
      VerifyExact(H, logId, raw, file, true, entries, verified.value.1);
      AppendSucceeds(H, logId, State(), entries, pub);
      raw := raw + LineText(entry);
      entries := entries + [entry];
      var checkpoint := BuildCheckpoint(H, logId, entries);
      file := Holds(checkpoint);
      VerifyExact(H, logId, raw, file, false, entries, checkpoint);
      return Success(BuildReceipt(H, entries, |entries| - 1, checkpoint));
    }

    /** `verify`. */
    method Verify() returns (r: Result<Checkpoint, LogError>)
      ensures match VerifyUnlocked(H, logId, raw, file, false)
              case Success((_, c)) => r == Success(c)
              case Failure(error) => r == Failure(error)
      ensures r.Success? <==> file.Holds? && exists es :: Consistent(H, logId, State(), es)
    {
      hide VerifyUnlocked, BuildCheckpoint, Translate, CanonicalText, Published;
      var verified := Check(false);
      if es :| file.Holds? && Consistent(H, logId, State(), es) {
        VerifyExact(H, logId, raw, file, false, es, BuildCheckpoint(H, logId, es));
      }
      if verified.Failure? {
        return Failure(verified.error);
      }
      VerifyExact(H, logId, raw, file, false, verified.value.0, verified.value.1);
      assert Consistent(H, logId, State(), verified.value.0);
      return Success(verified.value.1);
    }

    /** `verify_receipt`: the fault for which it raises, or none when it returns True. */
    method VerifyReceipt(r: Receipt) returns (fault: Option<LogError>)
      ensures fault == ReceiptFault(H, logId, raw, r)
    {
      hide ParseLog, ChainFault, ValidCheckpoint, IsName, ReceiptPayload, MerkleRoot, MerklePath, CheckpointPayload,
           BuildReceipt, Translate;
      var reached := FollowPath(H, r.leafHash, r.path);
      if !(IsName(r.logId) && ValidCheckpoint(H, r.checkpoint) && r.logId == r.checkpoint.logId
           && r.leafIndex < r.checkpoint.treeSize && r.leafHash == LeafHash(H, r.entryDigest)
           && reached == r.checkpoint.root && r.digest == H(Codes(ReceiptPayload(r)))) {
        return Some(InvalidReceipt);
      }
      if r.logId != logId {
        return Some(ForeignReceipt);
      }
      var read := ReadEntries(H, raw);
      if read.Failure? {
        return Some(read.error);
      }
      if r.checkpoint.treeSize > |read.value| {
        return Some(ReceiptExceedsLog);
      }
      var prefix := read.value[..r.checkpoint.treeSize];
      fault := ValidateEntryChain(logId, prefix);
      if fault.Some? {
        return;
      }
      if BuildCheckpoint(H, logId, prefix) != r.checkpoint {
        return Some(ReceiptCheckpointMismatch);
      }
      if prefix[r.leafIndex].digest != r.entryDigest {
        return Some(ReceiptEntryMismatch);
      }
      if BuildReceipt(H, prefix, r.leafIndex, r.checkpoint) != r {
        return Some(ReceiptPathMismatch);
      }
      return None;
    }
  }
}

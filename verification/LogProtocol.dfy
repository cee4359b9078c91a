/** Many processes appending to and verifying one log: they take the lock, read, write the line
    in pieces, replace the checkpoint and release the lock, in any interleaving, and any of them
    may die between two steps (src/skill_native/transparency_log.py, `append` and `verify`). */
module LogProtocol {
  import opened Wrappers
  import opened Hashing
  import opened CanonicalJson
  import opened LogEntries
  import opened LogText
  import opened LogChain
  import opened LogReceipts

  type Pid = nat

  /** Where a process that holds the lock stands. */
  datatype Stage =
    | AppendStart(pub: Publication)
    | AppendWrite(es: seq<Entry>, e: Entry, done: nat)
    | AppendReturn(receipt: Receipt)
    | VerifyStart
    | VerifyRead(read: Result<seq<Entry>, LogError>)
    | VerifyDone(result: Result<(seq<Entry>, Checkpoint), LogError>)
  {
    predicate Appending() { AppendStart? || AppendWrite? || AppendReturn? }
  }

  /** The two files, the lock, and the processes; then, for the statements only, what has been
      published: the raw text up to the last publication, its entries, the entry whose line is
      being written with the number of its characters already in the file, and the receipts
      that were returned. No step looks at these. */
  datatype System = System(
    raw: string,
    file: CheckpointFile,
    writer: Option<Pid>,
    readers: set<Pid>,
    procs: map<Pid, Stage>,
    base: string,
    published: seq<Entry>,
    partial: Option<(Entry, nat)>,
    issued: seq<Receipt>)

  datatype Action =
    | BeginAppend(p: Pid, pub: Publication)
    | CheckLog(p: Pid)
    | WriteMore(p: Pid, n: nat)
    | ReplaceCheckpoint(p: Pid)
    | Return(p: Pid)
    | BeginVerify(p: Pid)
    | ReadLog(p: Pid)
    | Decide(p: Pid)
    | EndVerify(p: Pid)
    | Crash(p: Pid)

  /** The lock is dropped, by the process or by the system when it dies. */
  function Released(s: System, p: Pid): System {
    s.(writer := if s.writer == Some(p) then None else s.writer, readers := s.readers - {p}, procs := s.procs - {p})
  }

  function At(s: System, p: Pid, stage: Stage): System {
    s.(procs := s.procs[p := stage])
  }

  /** One step; nothing if it is not enabled. */
  function Next(H: Hash, logId: string, s: System, a: Action): Option<System> {
    match a
    case BeginAppend(p, pub) =>
      if p in s.procs || s.writer.Some? || s.readers != {} then None
      else Some(At(s, p, AppendStart(pub)).(writer := Some(p)))
    case CheckLog(p) =>
      if p !in s.procs || !s.procs[p].AppendStart? then None
      else
        var pub := s.procs[p].pub;
        var checked := VerifyUnlocked(H, logId, s.raw, s.file, true);
        if checked.Failure? || EnvelopeSeen(checked.value.0, pub.envelope) then Some(Released(s, p))
        else
          var e := NewEntry(H, logId, checked.value.0, pub);
          Some(At(s, p, AppendWrite(checked.value.0, e, 0)).(partial := Some((e, 0))))
    case WriteMore(p, n) =>
      if p !in s.procs || !s.procs[p].AppendWrite? then None
      else
        var AppendWrite(es, e, done) := s.procs[p];
        if n == 0 || done + n > |LineText(e)| then None
        else Some(At(s, p, AppendWrite(es, e, done + n))
                  .(raw := s.raw + LineText(e)[done..done + n], partial := Some((e, done + n))))
    case ReplaceCheckpoint(p) =>
      if p !in s.procs || !s.procs[p].AppendWrite? then None
      else
        var AppendWrite(es, e, done) := s.procs[p];
        if done != |LineText(e)| then None
        else
          var c := BuildCheckpoint(H, logId, es + [e]);
          Some(At(s, p, AppendReturn(BuildReceipt(H, es + [e], |es|, c)))
               .(file := Holds(c), base := s.raw, published := s.published + [e], partial := None))
    case Return(p) =>
      if p !in s.procs || !s.procs[p].AppendReturn? then None
      else Some(Released(s, p).(issued := s.issued + [s.procs[p].receipt]))
    case BeginVerify(p) =>
      if p in s.procs || s.writer.Some? then None
      else Some(At(s, p, VerifyStart).(readers := s.readers + {p}))
    case ReadLog(p) =>
      if p !in s.procs || !s.procs[p].VerifyStart? then None
      else Some(At(s, p, VerifyRead(ParseLog(H, Translate(s.raw)))))
    case Decide(p) =>
      if p !in s.procs || !s.procs[p].VerifyRead? then None
      else Some(At(s, p, VerifyDone(Judge(H, logId, s.procs[p].read, s.file, false))))
    case EndVerify(p) =>
      if p !in s.procs || !s.procs[p].VerifyDone? then None else Some(Released(s, p))
    case Crash(p) =>
      if p !in s.procs then None
      else if s.procs[p].AppendWrite? && s.procs[p].done == 0 then Some(Released(s, p).(partial := None))
      else Some(Released(s, p))
  }

  /** A run of steps; nothing if one of them is not enabled. */
  function Run(H: Hash, logId: string, s: System, actions: seq<Action>): Option<System>
    decreases |actions|
  {
    hide Next;
    if actions == [] then Some(s)
    else match Next(H, logId, s, actions[0])
      case None => None
      case Some(s') => Run(H, logId, s', actions[1..])
  }

  /** No process is active, and the files are those of the entries `es`. */
  function Start(files: LogState, es: seq<Entry>): System {
    System(files.raw, files.file, None, {}, map[], files.raw, es, None, [])
  }

  // ------------------------------------------------------------------- invariants

  function PartialText(partial: Option<(Entry, nat)>): string {
    match partial
    case None => ""
    case Some((e, k)) => if k <= |LineText(e)| then LineText(e)[..k] else ""
  }

  /** Readers and a writer exclude each other, and only lock holders are active. */
  ghost predicate Locked(s: System) {
    && (s.writer.Some? ==> s.readers == {})
    && (forall p :: p in s.procs && s.procs[p].Appending() ==> s.writer == Some(p))
    && (forall p :: p in s.procs && !s.procs[p].Appending() ==> p in s.readers)
    && (forall p :: p in s.readers ==> p in s.procs && !s.procs[p].Appending())
    && (s.writer.Some? ==> s.writer.value in s.procs && s.procs[s.writer.value].Appending())
  }

  ghost predicate Writing(s: System) {
    s.writer.Some? && s.writer.value in s.procs && s.procs[s.writer.value].AppendWrite?
  }

  /** A line was begun, its writer is gone, and the checkpoint was not replaced. */
  ghost predicate Damaged(s: System) {
    s.partial.Some? && !Writing(s)
  }

  ghost predicate FilesMatch(H: Hash, logId: string, s: System) {
    && Consistent(H, logId, LogState(s.base, s.file), s.published)
    && s.raw == s.base + PartialText(s.partial)
    && (s.partial.Some? ==>
          var (e, k) := s.partial.value;
          ValidEntry(H, e) && Continues(logId, s.published, e) && k <= |LineText(e)| && (!Writing(s) ==> k > 0))
  }

  ghost predicate StageMatches(H: Hash, logId: string, s: System, stage: Stage) {
    match stage
    case AppendStart(_) => true
    case AppendWrite(es, e, done) => es == s.published && s.partial == Some((e, done))
    case AppendReturn(r) => s.partial == None && IssuedBy(H, logId, s.published, r)
    case VerifyStart => true
    case VerifyRead(read) => read == ParseLog(H, Translate(s.raw))
    case VerifyDone(result) => result == VerifyUnlocked(H, logId, s.raw, s.file, false)
  }

  ghost predicate Inv(H: Hash, logId: string, s: System) {
    && Locked(s)
    && FilesMatch(H, logId, s)
    && (forall p :: p in s.procs ==> StageMatches(H, logId, s, s.procs[p]))
    && (forall i :: 0 <= i < |s.issued| ==> IssuedBy(H, logId, s.published, s.issued[i]))
  }

  /** What the log reads as, seen against what was published. */
  lemma ReadingPartial(H: Hash, logId: string, s: System)
    requires FilesMatch(H, logId, s)
    ensures Translate(s.raw) == CanonicalText(s.published) + PartialText(s.partial)
    ensures s.partial == None ==> ParseLog(H, Translate(s.raw)) == Success(s.published)
    ensures s.partial.Some? ==>
              var (e, k) := s.partial.value;
              && (k == 0 ==> ParseLog(H, Translate(s.raw)) == Success(s.published))
              && (0 < k < |LineText(e)| ==> ParseLog(H, Translate(s.raw)) == Failure(TruncatedLine))
              && (k == |LineText(e)| ==> ParseLog(H, Translate(s.raw)) == Success(s.published + [e]))
  {
    hide ParseLog, Translate, CanonicalText, LineText, ValidEntry, BuildCheckpoint, IsName, Continues;
    var t := CanonicalText(s.published);
    match s.partial {
      case None =>
        assert s.base + "" == s.base && t + "" == t;
        ParseLogExact(H, t, s.published);
      case Some((e, k)) =>
        ReadingLine(H, s.base, s.published, e, k);
    }
  }

  lemma ReadingLine(H: Hash, base: string, es: seq<Entry>, e: Entry, k: nat)
    requires Translate(base) == CanonicalText(es) && AllValid(H, es) && ValidEntry(H, e) && k <= |LineText(e)|
    ensures var t := Translate(base + LineText(e)[..k]);
            && t == CanonicalText(es) + LineText(e)[..k]
            && (k == 0 ==> ParseLog(H, t) == Success(es))
            && (0 < k < |LineText(e)| ==> ParseLog(H, t) == Failure(TruncatedLine))
            && (k == |LineText(e)| ==> ParseLog(H, t) == Success(es + [e]))
  {
    assert IsName(e.logId);
    LineTextShape(e);
    hide ParseLog, Translate, CanonicalText, LineText, IsName, ValidEntry;
    TranslateAppended(base, e, k);
    var t := CanonicalText(es);
    if k == 0 {
      assert t + LineText(e)[..0] == t;
      ParseLogExact(H, t, es);
    } else if k < |LineText(e)| {
      TornLineUnreadable(H, es, e, k);
    } else {
      assert LineText(e)[..k] == LineText(e);
      CanonicalTextSnoc(es, e);
      ParseLogExact(H, CanonicalText(es + [e]), es + [e]);
    }
  }

  lemma BegunLine(H: Hash, logId: string, s: System)
    requires FilesMatch(H, logId, s) && Damaged(s)
    ensures s.partial.Some? && 0 < s.partial.value.1 <= |LineText(s.partial.value.0)|
  {
    hide LineText, Consistent, ValidEntry, Continues, PartialText, Writing;
  }

  lemma SettledCheckpoint(H: Hash, logId: string, s: System)
    requires FilesMatch(H, logId, s)
    ensures s.file == Holds(BuildCheckpoint(H, logId, s.published)) || (s.file == Missing && s.published == [])
  {
    hide LineText, ValidEntry, Continues, PartialText, Writing, Published, BuildCheckpoint, Translate, CanonicalText;
  }

  /** A damaged log is refused by every verification and every append: torn, without its first
      checkpoint, or ahead of its checkpoint. */
  lemma DamageRefused(H: Hash, logId: string, s: System, allowMissing: bool)
    requires FilesMatch(H, logId, s) && Damaged(s)
    ensures VerifyUnlocked(H, logId, s.raw, s.file, allowMissing).Failure?
  {
    hide *;
    ReadingPartial(H, logId, s);
    BegunLine(H, logId, s);
    SettledCheckpoint(H, logId, s);
    var r := VerifyUnlocked(H, logId, s.raw, s.file, allowMissing);
    if r.Success? {
      var (es, c) := r.value;
      VerifyExact(H, logId, s.raw, s.file, allowMissing, es, c);
      PublishedReads(H, logId, Translate(s.raw), es);
      assert es == s.published + [s.partial.value.0];
      BuiltCheckpointFields(H, logId, s.published);
      BuiltCheckpointFields(H, logId, es);
    }
  }

  lemma PublishedReads(H: Hash, logId: string, t: string, es: seq<Entry>)
    requires Published(H, logId, es) && t == CanonicalText(es)
    ensures ParseLog(H, t) == Success(es)
  {
    ParseLogExact(H, t, es);
    hide ParseLog, CanonicalText, ValidEntry, ValidChain;
  }

  /** An undamaged log, while nobody writes, is accepted by the checks of `append`. */
  lemma UndamagedAccepted(H: Hash, logId: string, s: System, allowMissing: bool)
    requires FilesMatch(H, logId, s) && s.partial == None && (allowMissing || s.file != Missing)
    ensures VerifyUnlocked(H, logId, s.raw, s.file, allowMissing)
         == Success((s.published, BuildCheckpoint(H, logId, s.published)))
  {
    hide ParseLog, Translate, CanonicalText, ValidEntry, BuildCheckpoint, IsName, Continues;
    ReadingPartial(H, logId, s);
    assert s.base + "" == s.base;
    VerifyExact(H, logId, s.raw, s.file, allowMissing, s.published, BuildCheckpoint(H, logId, s.published));
  }

  // ------------------------------------------------------------ every step keeps it

  lemma OnlyWriter(s: System, p: Pid)
    requires Locked(s) && p in s.procs && s.procs[p].Appending()
    ensures s.writer == Some(p) && forall q :: q in s.procs ==> q == p
  {
  }

  lemma NextLocked(H: Hash, logId: string, s: System, a: Action)
    requires Locked(s) && Next(H, logId, s, a).Some?
    ensures Locked(Next(H, logId, s, a).value)
  {
    hide VerifyUnlocked, EnvelopeSeen, NewEntry, LineText, BuildCheckpoint, BuildReceipt, ParseLog, Judge, Translate;
  }

  /** The files and what is published stay as they are. */
  ghost predicate SameFiles(s: System, s': System) {
    s'.raw == s.raw && s'.file == s.file && s'.base == s.base && s'.published == s.published && s'.partial == s.partial
  }

  lemma StagesKept(H: Hash, logId: string, s: System, s': System)
    requires Inv(H, logId, s) && SameFiles(s, s')
    requires FilesMatch(H, logId, s) && (s.partial.Some? && !Writing(s') ==> s.partial.value.1 > 0)
    ensures FilesMatch(H, logId, s')
    ensures forall p :: p in s.procs ==> StageMatches(H, logId, s', s.procs[p])
  {
    hide ValidEntry, Continues, Consistent, LineText, PartialText, IssuedBy, ParseLog, Translate, VerifyUnlocked,
         Locked, Writing;
  }

  /** Nobody but the writer touches a line that is being written. */
  lemma NotWriting(s: System, p: Pid)
    requires Locked(s) && p in s.procs && !s.procs[p].AppendWrite?
    ensures !Writing(s)
  {
  }

  /** The stages of a state that differs only in one process and in newly returned receipts. */
  ghost predicate OneMoved(H: Hash, logId: string, s: System, s': System, p: Pid) {
    && (forall q :: q in s'.procs ==>
          (q in s.procs && s'.procs[q] == s.procs[q]) || (q == p && StageMatches(H, logId, s', s'.procs[q])))
    && (s'.issued == s.issued
        || exists r :: s'.issued == s.issued + [r] && IssuedBy(H, logId, s.published, r))
  }

  lemma MovedInv(H: Hash, logId: string, s: System, s': System, p: Pid)
    requires Inv(H, logId, s) && Locked(s') && SameFiles(s, s') && OneMoved(H, logId, s, s', p)
    requires s.partial.Some? && !Writing(s') ==> s.partial.value.1 > 0
    ensures Inv(H, logId, s')
  {
    hide FilesMatch, StageMatches, IssuedBy, Locked, Writing, SameFiles;
    StagesKept(H, logId, s, s');
    assert s'.published == s.published by { SamePublished(s, s'); }
  }

  lemma SamePublished(s: System, s': System)
    requires SameFiles(s, s')
    ensures s'.published == s.published
  {
  }

  lemma MovedStage(H: Hash, logId: string, s: System, a: Action)
    requires Inv(H, logId, s) && Next(H, logId, s, a).Some?
    requires a.BeginAppend? || a.BeginVerify? || a.EndVerify? || a.Return? || a.ReadLog? || a.Decide?
    ensures OneMoved(H, logId, s, Next(H, logId, s, a).value, a.p) && SameFiles(s, Next(H, logId, s, a).value)
  {
    hide VerifyUnlocked, EnvelopeSeen, NewEntry, LineText, BuildCheckpoint, BuildReceipt, ParseLog, Translate,
         FilesMatch, IssuedBy, Locked;
    var s' := Next(H, logId, s, a).value;
    if a.Decide? {
      VerdictOfRead(H, logId, s);
    }
    if a.Return? {
      assert s'.issued == s.issued + [s.procs[a.p].receipt];
    }
  }

  lemma VerdictOfRead(H: Hash, logId: string, s: System)
    ensures VerifyUnlocked(H, logId, s.raw, s.file, false)
         == Judge(H, logId, ParseLog(H, Translate(s.raw)), s.file, false)
  {
    hide Judge, ParseLog, Translate;
  }

  lemma LockStepInv(H: Hash, logId: string, s: System, a: Action)
    requires Inv(H, logId, s) && Next(H, logId, s, a).Some?
    requires a.BeginAppend? || a.BeginVerify? || a.EndVerify? || a.Return? || a.ReadLog? || a.Decide?
    ensures Inv(H, logId, Next(H, logId, s, a).value)
  {
    var s' := Next(H, logId, s, a).value;
    NextLocked(H, logId, s, a);
    MovedStage(H, logId, s, a);
    NotYetWriting(H, logId, s, a);
    hide Next, Locked, OneMoved, StageMatches, IssuedBy, ValidEntry, Continues, Consistent, LineText;
    MovedInv(H, logId, s, s', a.p);
  }

  lemma NotYetWriting(H: Hash, logId: string, s: System, a: Action)
    requires Locked(s) && Next(H, logId, s, a).Some?
    requires a.BeginAppend? || a.BeginVerify? || a.EndVerify? || a.Return? || a.ReadLog? || a.Decide?
    ensures !Writing(s) && !Writing(Next(H, logId, s, a).value)
  {
    hide VerifyUnlocked, EnvelopeSeen, NewEntry, LineText, BuildCheckpoint, BuildReceipt, ParseLog, Judge, Translate;
  }

  lemma ReleasedMoved(H: Hash, logId: string, s: System, p: Pid)
    ensures OneMoved(H, logId, s, Released(s, p), p) && SameFiles(s, Released(s, p))
  {
    hide StageMatches, IssuedBy;
  }

  /** The invariant of a state whose only active process is p. */
  lemma AloneInv(H: Hash, logId: string, s: System, p: Pid)
    requires Locked(s) && FilesMatch(H, logId, s)
    requires p in s.procs && StageMatches(H, logId, s, s.procs[p]) && forall q :: q in s.procs ==> q == p
    requires forall i :: 0 <= i < |s.issued| ==> IssuedBy(H, logId, s.published, s.issued[i])
    ensures Inv(H, logId, s)
  {
    hide Locked, FilesMatch, StageMatches, IssuedBy;
  }

  /** The text grows with the line being written. */
  lemma LineStarted(H: Hash, logId: string, s: System, pub: Publication, s': System)
    requires FilesMatch(H, logId, s) && s.partial == None && !EnvelopeSeen(s.published, pub.envelope)
    requires SameFiles(s, s'.(partial := s.partial))
    requires s'.partial == Some((NewEntry(H, logId, s.published, pub), 0)) && Writing(s')
    ensures FilesMatch(H, logId, s')
  {
    hide NewEntry, ValidEntry, Continues, Consistent, LineText, EnvelopeSeen, Writing;
    ConsistentPublished(H, logId, LogState(s.base, s.file), s.published);
    NewEntryContinues(H, logId, s.published, pub);
    assert LineText(s'.partial.value.0)[..0] == "";
  }

  lemma CheckLogEffect(H: Hash, logId: string, s: System, p: Pid)
    requires Inv(H, logId, s) && Next(H, logId, s, CheckLog(p)).Some?
    ensures p in s.procs && s.procs[p].AppendStart?
    ensures var s' := Next(H, logId, s, CheckLog(p)).value;
            var checked := VerifyUnlocked(H, logId, s.raw, s.file, true);
            || s' == Released(s, p)
            || (checked.Success? && !EnvelopeSeen(checked.value.0, s.procs[p].pub.envelope)
                && var e := NewEntry(H, logId, checked.value.0, s.procs[p].pub);
                   s' == At(s, p, AppendWrite(checked.value.0, e, 0)).(partial := Some((e, 0))))
  {
    hide VerifyUnlocked, EnvelopeSeen, NewEntry, Inv, Released, At;
  }

  lemma InvParts(H: Hash, logId: string, s: System)
    requires Inv(H, logId, s)
    ensures Locked(s) && FilesMatch(H, logId, s)
    ensures forall p :: p in s.procs ==> StageMatches(H, logId, s, s.procs[p])
    ensures forall i :: 0 <= i < |s.issued| ==> IssuedBy(H, logId, s.published, s.issued[i])
  {
  }

  lemma CheckLogInv(H: Hash, logId: string, s: System, p: Pid)
    requires Inv(H, logId, s) && Next(H, logId, s, CheckLog(p)).Some?
    ensures Inv(H, logId, Next(H, logId, s, CheckLog(p)).value)
  {
    hide *;
    var s' := Next(H, logId, s, CheckLog(p)).value;
    CheckLogEffect(H, logId, s, p);
    InvParts(H, logId, s);
    NextLocked(H, logId, s, CheckLog(p));
    OnlyWriter(s, p);
    NotWriting(s, p);
    if s' == Released(s, p) {
      StaysUnwritten(s, p);
      ReleasedInv(H, logId, s, p);
    } else {
      var pub := s.procs[p].pub;
      NoDamage(H, logId, s);
      UndamagedAccepted(H, logId, s, true);
      StartedWriting(H, logId, s, p, pub, s');
      LineStarted(H, logId, s, pub, s');
      AloneInv(H, logId, s', p);
    }
  }

  lemma StaysUnwritten(s: System, p: Pid)
    requires !Writing(s)
    ensures !Writing(Released(s, p))
  {
  }

  lemma StartedWriting(H: Hash, logId: string, s: System, p: Pid, pub: Publication, s': System)
    requires s.writer == Some(p) && p in s.procs && forall q :: q in s.procs ==> q == p
    requires var e := NewEntry(H, logId, s.published, pub);
             s' == At(s, p, AppendWrite(s.published, e, 0)).(partial := Some((e, 0)))
    ensures Writing(s') && SameFiles(s, s'.(partial := s.partial)) && s'.issued == s.issued
    ensures p in s'.procs && StageMatches(H, logId, s', s'.procs[p]) && forall q :: q in s'.procs ==> q == p
    ensures s'.published == s.published && s'.partial == Some((NewEntry(H, logId, s.published, pub), 0))
  {
    hide NewEntry;
  }

  lemma ReleasedInv(H: Hash, logId: string, s: System, p: Pid)
    requires Inv(H, logId, s) && Locked(Released(s, p)) && !Writing(Released(s, p))
    requires s.partial.Some? ==> s.partial.value.1 > 0 || !Writing(s)
    ensures Inv(H, logId, Released(s, p))
  {
    InvParts(H, logId, s);
    ReleasedMoved(H, logId, s, p);
    if s.partial.Some? && !Writing(s) {
      PartialBegun(H, logId, s);
    }
    hide *;
    MovedInv(H, logId, s, Released(s, p), p);
  }

  lemma PartialBegun(H: Hash, logId: string, s: System)
    requires FilesMatch(H, logId, s) && !Writing(s) && s.partial.Some?
    ensures s.partial.value.1 > 0
  {
  }

  lemma NoDamage(H: Hash, logId: string, s: System)
    requires FilesMatch(H, logId, s) && !Writing(s) && VerifyUnlocked(H, logId, s.raw, s.file, true).Success?
    ensures s.partial == None
  {
    hide FilesMatch, VerifyUnlocked;
    if s.partial.Some? {
      DamageRefused(H, logId, s, true);
    }
  }

  lemma ConsistentPublished(H: Hash, logId: string, files: LogState, es: seq<Entry>)
    requires Consistent(H, logId, files, es)
    ensures Published(H, logId, es) && Translate(files.raw) == CanonicalText(es)
  {
  }

  lemma LineLonger(H: Hash, logId: string, s: System, e: Entry, done: nat, n: nat, s': System)
    requires FilesMatch(H, logId, s) && s.partial == Some((e, done)) && done + n <= |LineText(e)|
    requires s'.file == s.file && s'.base == s.base && s'.published == s.published && Writing(s')
    requires s'.raw == s.raw + LineText(e)[done..done + n] && s'.partial == Some((e, done + n))
    ensures FilesMatch(H, logId, s')
  {
    hide ValidEntry, Continues, Consistent, LineText, Writing;
    Longer(s.base, LineText(e), done, n);
  }

  lemma WriteMoreEffect(H: Hash, logId: string, s: System, p: Pid, n: nat) returns (e: Entry, done: nat)
    requires Inv(H, logId, s) && Next(H, logId, s, WriteMore(p, n)).Some?
    ensures s.partial == Some((e, done)) && done + n <= |LineText(e)|
    ensures var s' := Next(H, logId, s, WriteMore(p, n)).value;
            && s'.file == s.file && s'.base == s.base && s'.published == s.published && s'.issued == s.issued
            && s'.raw == s.raw + LineText(e)[done..done + n] && s'.partial == Some((e, done + n))
            && Writing(s') && p in s'.procs && (forall q :: q in s'.procs ==> q == p)
            && s'.procs[p] == AppendWrite(s.published, e, done + n)
  {
    hide BuildCheckpoint, BuildReceipt, LineText, VerifyUnlocked, ParseLog, EnvelopeSeen, NewEntry, Judge, Translate,
         Inv;
    e, done := s.procs[p].e, s.procs[p].done;
    WriterStage(H, logId, s, p);
  }

  lemma WriteMoreInv(H: Hash, logId: string, s: System, p: Pid, n: nat)
    requires Inv(H, logId, s) && Next(H, logId, s, WriteMore(p, n)).Some?
    ensures Inv(H, logId, Next(H, logId, s, WriteMore(p, n)).value)
  {
    hide *;
    var s' := Next(H, logId, s, WriteMore(p, n)).value;
    var e, done := WriteMoreEffect(H, logId, s, p, n);
    InvParts(H, logId, s);
    NextLocked(H, logId, s, WriteMore(p, n));
    LineLonger(H, logId, s, e, done, n, s');
    WriteStage(H, logId, s', e, done + n);
    AloneInv(H, logId, s', p);
  }

  lemma WriteStage(H: Hash, logId: string, s: System, e: Entry, done: nat)
    requires s.partial == Some((e, done))
    ensures StageMatches(H, logId, s, AppendWrite(s.published, e, done))
  {
  }

  lemma Longer(base: string, line: string, done: nat, n: nat)
    requires done + n <= |line|
    ensures base + line[..done] + line[done..done + n] == base + line[..done + n]
  {
    assert line[..done] + line[done..done + n] == line[..done + n];
  }

  /** Receipts stay those of a prefix when the log grows. */
  lemma IssuedByLonger(H: Hash, logId: string, es: seq<Entry>, more: seq<Entry>, r: Receipt)
    requires IssuedBy(H, logId, es, r)
    ensures IssuedBy(H, logId, es + more, r)
  {
    hide BuildReceipt, BuildCheckpoint;
    assert (es + more)[..r.checkpoint.treeSize] == es[..r.checkpoint.treeSize];
  }

  lemma NewReceiptIssued(H: Hash, logId: string, es: seq<Entry>, e: Entry)
    ensures IssuedBy(H, logId, es + [e], BuildReceipt(H, es + [e], |es|, BuildCheckpoint(H, logId, es + [e])))
  {
    var all := es + [e];
    var c := BuildCheckpoint(H, logId, all);
    BuiltReceiptFields(H, all, |es|, c);
    BuiltCheckpointFields(H, logId, all);
    hide BuildReceipt, BuildCheckpoint;
    assert all[..|all|] == all;
  }

  lemma LineReplaced(H: Hash, logId: string, s: System, e: Entry, s': System)
    requires FilesMatch(H, logId, s) && s.partial == Some((e, |LineText(e)|))
    requires s'.file == Holds(BuildCheckpoint(H, logId, s.published + [e]))
    requires s'.raw == s.raw && s'.base == s.raw && s'.published == s.published + [e] && s'.partial == None
    ensures FilesMatch(H, logId, s')
  {
    hide ValidEntry, Continues, Consistent, LineText, BuildCheckpoint, Writing;
    assert LineText(e)[..|LineText(e)|] == LineText(e);
    ReplacedConsistent(H, logId, s.base, s.file, s.published, e);
    assert s'.base + "" == s'.base;
  }

  lemma ReplaceEffect(H: Hash, logId: string, s: System, p: Pid) returns (e: Entry)
    requires Inv(H, logId, s) && Next(H, logId, s, ReplaceCheckpoint(p)).Some?
    ensures s.partial == Some((e, |LineText(e)|))
    ensures var s' := Next(H, logId, s, ReplaceCheckpoint(p)).value;
            var c := BuildCheckpoint(H, logId, s.published + [e]);
            && s'.file == Holds(c) && s'.raw == s.raw && s'.base == s.raw && s'.published == s.published + [e]
            && s'.partial == None && s'.issued == s.issued
            && p in s'.procs && (forall q :: q in s'.procs ==> q == p)
            && s'.procs[p] == AppendReturn(BuildReceipt(H, s.published + [e], |s.published|, c))
  {
    hide BuildCheckpoint, BuildReceipt, LineText, VerifyUnlocked, ParseLog, EnvelopeSeen, NewEntry, Judge, Translate,
         Inv;
    e := s.procs[p].e;
    WriterStage(H, logId, s, p);
  }

  lemma WriterStage(H: Hash, logId: string, s: System, p: Pid)
    requires Inv(H, logId, s) && p in s.procs && s.procs[p].AppendWrite?
    ensures s.writer == Some(p) && forall q :: q in s.procs ==> q == p
    ensures s.procs[p].es == s.published && s.partial == Some((s.procs[p].e, s.procs[p].done))
  {
    OnlyWriter(s, p);
    hide FilesMatch, IssuedBy, Locked, ParseLog, VerifyUnlocked;
  }

  lemma ReplaceInv(H: Hash, logId: string, s: System, p: Pid)
    requires Inv(H, logId, s) && Next(H, logId, s, ReplaceCheckpoint(p)).Some?
    ensures Inv(H, logId, Next(H, logId, s, ReplaceCheckpoint(p)).value)
  {
    hide *;
    var s' := Next(H, logId, s, ReplaceCheckpoint(p)).value;
    var e := ReplaceEffect(H, logId, s, p);
    InvParts(H, logId, s);
    NextLocked(H, logId, s, ReplaceCheckpoint(p));
    LineReplaced(H, logId, s, e, s');
    NewReceiptIssued(H, logId, s.published, e);
    ReturnStage(H, logId, s', s'.procs[p].receipt);
    forall i | 0 <= i < |s'.issued| ensures IssuedBy(H, logId, s'.published, s'.issued[i]) {
      IssuedByLonger(H, logId, s.published, [e], s.issued[i]);
    }
    AloneInv(H, logId, s', p);
  }

  lemma ReturnStage(H: Hash, logId: string, s: System, r: Receipt)
    requires s.partial == None && IssuedBy(H, logId, s.published, r)
    ensures StageMatches(H, logId, s, AppendReturn(r))
  {
  }

  lemma LineAbandoned(H: Hash, logId: string, s: System, s': System)
    requires FilesMatch(H, logId, s) && s.partial.Some? && s.partial.value.1 == 0
    requires SameFiles(s, s'.(partial := s.partial)) && s'.partial == None
    ensures FilesMatch(H, logId, s')
  {
    hide ValidEntry, Continues, Consistent, LineText, Writing;
    assert LineText(s.partial.value.0)[..0] == "";
  }

  lemma CrashInv(H: Hash, logId: string, s: System, p: Pid)
    requires Inv(H, logId, s) && Next(H, logId, s, Crash(p)).Some?
    ensures Inv(H, logId, Next(H, logId, s, Crash(p)).value)
  {
    hide *;
    var s' := Next(H, logId, s, Crash(p)).value;
    CrashEffect(H, logId, s, p);
    InvParts(H, logId, s);
    NextLocked(H, logId, s, Crash(p));
    if s'.partial == s.partial {
      ReleasedInv(H, logId, s, p);
    } else {
      LineAbandoned(H, logId, s, s');
      IdleInv(H, logId, s');
    }
  }

  lemma CrashEffect(H: Hash, logId: string, s: System, p: Pid)
    requires Inv(H, logId, s) && Next(H, logId, s, Crash(p)).Some?
    ensures var s' := Next(H, logId, s, Crash(p)).value;
            || (s' == Released(s, p) && s'.partial == s.partial && !Writing(s')
                && (s.partial.Some? ==> s.partial.value.1 > 0 || !Writing(s)))
            || (s' == Released(s, p).(partial := None) && s'.procs == map[] && s'.issued == s.issued
                && s'.partial == None && s'.published == s.published && SameFiles(s, s'.(partial := s.partial))
                && s.partial.Some? && s.partial.value.1 == 0)
  {
    hide FilesMatch, IssuedBy, ParseLog, VerifyUnlocked, LineText;
    if s.procs[p].AppendWrite? {
      OnlyWriter(s, p);
    } else {
      NotWriting(s, p);
    }
  }

  lemma IdleInv(H: Hash, logId: string, s: System)
    requires Locked(s) && FilesMatch(H, logId, s) && s.procs == map[]
    requires forall i :: 0 <= i < |s.issued| ==> IssuedBy(H, logId, s.published, s.issued[i])
    ensures Inv(H, logId, s)
  {
    hide Locked, FilesMatch, StageMatches, IssuedBy;
  }

  /** Every step keeps the invariant. */
  lemma NextInv(H: Hash, logId: string, s: System, a: Action)
    requires Inv(H, logId, s) && Next(H, logId, s, a).Some?
    ensures Inv(H, logId, Next(H, logId, s, a).value)
  {
    hide Inv, Next;
    match a {
      case CheckLog(p) => CheckLogInv(H, logId, s, p);
      case WriteMore(p, n) => WriteMoreInv(H, logId, s, p, n);
      case ReplaceCheckpoint(p) => ReplaceInv(H, logId, s, p);
      case Crash(p) => CrashInv(H, logId, s, p);
      case _ => LockStepInv(H, logId, s, a);
    }
  }

  lemma StartInv(H: Hash, logId: string, files: LogState, es: seq<Entry>)
    requires Consistent(H, logId, files, es)
    ensures Inv(H, logId, Start(files, es))
  {
    hide Consistent;
    assert files.raw + "" == files.raw;
  }

  lemma {:induction false} RunInv(H: Hash, logId: string, s: System, actions: seq<Action>)
    requires Inv(H, logId, s) && Run(H, logId, s, actions).Some?
    ensures Inv(H, logId, Run(H, logId, s, actions).value)
    decreases |actions|
  {
    hide Inv, Next;
    if actions != [] {
      NextInv(H, logId, s, actions[0]);
      RunInv(H, logId, Next(H, logId, s, actions[0]).value, actions[1..]);
    }
  }

  // -------------------------------------------------------------------- safety

  /** A later state: nothing published, returned or written is ever lost or changed. */
  ghost predicate Grown(s: System, s': System) {
    s.raw <= s'.raw && s.published <= s'.published && s.issued <= s'.issued
  }

  lemma NextGrows(H: Hash, logId: string, s: System, a: Action)
    requires Next(H, logId, s, a).Some?
    ensures Grown(s, Next(H, logId, s, a).value)
  {
    hide VerifyUnlocked, EnvelopeSeen, NewEntry, LineText, BuildCheckpoint, BuildReceipt, ParseLog, Judge, Translate;
  }

  lemma {:induction false} RunGrows(H: Hash, logId: string, s: System, actions: seq<Action>)
    requires Run(H, logId, s, actions).Some?
    ensures Grown(s, Run(H, logId, s, actions).value)
    decreases |actions|
  {
    hide Next;
    if actions != [] {
      NextGrows(H, logId, s, actions[0]);
      RunGrows(H, logId, Next(H, logId, s, actions[0]).value, actions[1..]);
    }
  }

  /** Safety over whole runs, for any interleaving of any number of processes with crashes at any
      step, starting from a consistent log: text, entries and receipts only grow; the published
      entries form a valid chain and their lines are always at the front of the log; and when a
      verifier has accepted, what it accepted is exactly what is published, with the checkpoint
      of exactly those entries. */
  lemma RunSafe(H: Hash, logId: string, files: LogState, es: seq<Entry>, before: seq<Action>, after: seq<Action>)
    requires Consistent(H, logId, files, es)
    requires Run(H, logId, Start(files, es), before).Some?
    requires Run(H, logId, Run(H, logId, Start(files, es), before).value, after).Some?
    ensures var s := Run(H, logId, Start(files, es), before).value;
            var s' := Run(H, logId, s, after).value;
            && Grown(s, s') && es <= s.published
            && Published(H, logId, s'.published)
            && CanonicalText(s.published) <= Translate(s'.raw)
            && (forall p :: p in s'.procs && s'.procs[p].VerifyDone? && s'.procs[p].result.Success? ==>
                  && s'.procs[p].result.value == (s'.published, BuildCheckpoint(H, logId, s'.published))
                  && Translate(s'.raw) == CanonicalText(s'.published))
  {
    hide Consistent, Translate, CanonicalText, Published, BuildCheckpoint, StageMatches, Run;
    StartInv(H, logId, files, es);
    RunInv(H, logId, Start(files, es), before);
    RunGrows(H, logId, Start(files, es), before);
    var s := Run(H, logId, Start(files, es), before).value;
    RunInv(H, logId, s, after);
    RunGrows(H, logId, s, after);
    var s' := Run(H, logId, s, after).value;
    hide Inv;
    InvReading(H, logId, s');
    CanonicalTextPrefix(s.published, s'.published);
    forall p | p in s'.procs && s'.procs[p].VerifyDone? && s'.procs[p].result.Success?
      ensures s'.procs[p].result.value == (s'.published, BuildCheckpoint(H, logId, s'.published))
           && Translate(s'.raw) == CanonicalText(s'.published)
    {
      AcceptedIsPublished(H, logId, s', p);
    }
  }

  lemma CanonicalTextPrefix(a: seq<Entry>, b: seq<Entry>)
    requires a <= b
    ensures CanonicalText(a) <= CanonicalText(b)
  {
    CanonicalTextConcat(a, b[|a|..]);
    assert b == a + b[|a|..];
  }

  lemma InvReading(H: Hash, logId: string, s: System)
    requires Inv(H, logId, s)
    ensures Published(H, logId, s.published)
    ensures CanonicalText(s.published) <= Translate(s.raw)
  {
    hide StageMatches, Published, LineText, ParseLog;
    ReadingPartial(H, logId, s);
  }

  lemma AcceptedIsPublished(H: Hash, logId: string, s: System, p: Pid)
    requires Inv(H, logId, s) && p in s.procs && s.procs[p].VerifyDone? && s.procs[p].result.Success?
    ensures s.procs[p].result.value == (s.published, BuildCheckpoint(H, logId, s.published))
    ensures Translate(s.raw) == CanonicalText(s.published)
  {
    NotWriting(s, p);
    hide VerifyUnlocked, Translate, CanonicalText, Published, BuildCheckpoint, LineText, ValidEntry, Continues;
    if s.partial.Some? {
      DamageRefused(H, logId, s, false);
    } else {
      var (es, c) := s.procs[p].result.value;
      VerifyExact(H, logId, s.raw, s.file, false, es, c);
      UndamagedAccepted(H, logId, s, false);
      ReadingPartial(H, logId, s);
    }
  }

  /** Damage, left by a process that died between writing the first character of its line and
      replacing the checkpoint, is for ever: whatever is tried later, the files stay as they are
      and nothing more is published. */
  lemma {:induction false} DamagePermanent(H: Hash, logId: string, s: System, actions: seq<Action>)
    requires Inv(H, logId, s) && Damaged(s) && Run(H, logId, s, actions).Some?
    ensures var s' := Run(H, logId, s, actions).value;
            && Damaged(s') && SameFiles(s, s')
            && VerifyUnlocked(H, logId, s'.raw, s'.file, true).Failure?
            && VerifyUnlocked(H, logId, s'.raw, s'.file, false).Failure?
            && forall p :: p in s'.procs && s'.procs[p].VerifyDone? ==> s'.procs[p].result.Failure?
    decreases |actions|
  {
    hide Inv, Next, Damaged, SameFiles, VerifyUnlocked;
    if actions == [] {
      DamagedNow(H, logId, s);
    } else {
      var s1 := Next(H, logId, s, actions[0]).value;
      NextInv(H, logId, s, actions[0]);
      DamagedNext(H, logId, s, actions[0]);
      DamagePermanent(H, logId, s1, actions[1..]);
      SameFilesTransitive(s, s1, Run(H, logId, s, actions).value);
    }
  }

  lemma DamagedNow(H: Hash, logId: string, s: System)
    requires Inv(H, logId, s) && Damaged(s)
    ensures SameFiles(s, s)
    ensures VerifyUnlocked(H, logId, s.raw, s.file, true).Failure?
    ensures VerifyUnlocked(H, logId, s.raw, s.file, false).Failure?
    ensures forall p :: p in s.procs && s.procs[p].VerifyDone? ==> s.procs[p].result.Failure?
  {
    hide VerifyUnlocked, Inv, Damaged, StageMatches, FilesMatch;
    InvParts(H, logId, s);
    DamageRefused(H, logId, s, true);
    DamageRefused(H, logId, s, false);
    forall p | p in s.procs && s.procs[p].VerifyDone? ensures s.procs[p].result.Failure? {
      VerdictStage(H, logId, s, s.procs[p]);
    }
  }

  lemma VerdictStage(H: Hash, logId: string, s: System, stage: Stage)
    requires stage.VerifyDone? && StageMatches(H, logId, s, stage)
    ensures stage.result == VerifyUnlocked(H, logId, s.raw, s.file, false)
  {
    hide VerifyUnlocked;
  }

  lemma DamagedNext(H: Hash, logId: string, s: System, a: Action)
    requires Inv(H, logId, s) && Damaged(s) && Next(H, logId, s, a).Some?
    ensures Damaged(Next(H, logId, s, a).value) && SameFiles(s, Next(H, logId, s, a).value)
  {
    DamagedNow(H, logId, s);
    NoWriter(H, logId, s);
    hide Inv;
    RefusedNext(H, logId, s, a);
  }

  lemma RefusedNext(H: Hash, logId: string, s: System, a: Action)
    requires VerifyUnlocked(H, logId, s.raw, s.file, true).Failure?
    requires Next(H, logId, s, a).Some? && forall p :: p in s.procs ==> !s.procs[p].AppendWrite?
    ensures SameFiles(s, Next(H, logId, s, a).value) && !Writing(Next(H, logId, s, a).value)
  {
    hide VerifyUnlocked, EnvelopeSeen, NewEntry, LineText, BuildCheckpoint, BuildReceipt, ParseLog, Judge, Translate;
  }

  lemma NoWriter(H: Hash, logId: string, s: System)
    requires Inv(H, logId, s) && !Writing(s)
    ensures forall p :: p in s.procs ==> !s.procs[p].AppendWrite?
  {
    hide FilesMatch, IssuedBy, StageMatches;
    forall p | p in s.procs ensures !s.procs[p].AppendWrite? {
      if s.procs[p].AppendWrite? { OnlyWriter(s, p); }
    }
  }

  lemma SameFilesTransitive(s: System, s1: System, s2: System)
    requires SameFiles(s, s1) && SameFiles(s1, s2)
    ensures SameFiles(s, s2)
  {
  }

  /** Receipt permanence under interleaving and crashes: at any moment of any run, a receipt that
      was returned is accepted by `verify_receipt`, unless the log ends in a torn line; then no
      receipt is. A complete line without its checkpoint does not invalidate receipts. */
  lemma IssuedAccepted(H: Hash, logId: string, s: System, i: nat)
    requires Inv(H, logId, s) && i < |s.issued|
    ensures ReceiptFault(H, logId, s.raw, s.issued[i]) == None <==>
            (s.partial.Some? ==> s.partial.value.1 in {0, |LineText(s.partial.value.0)|})
  {
    hide *;
    InvParts(H, logId, s);
    ReadingPartial(H, logId, s);
    PublishedChain(H, logId, s);
    var r := s.issued[i];
    ReceiptExact(H, logId, s.raw, r);
    ReceiptInChain(H, logId, s.published, [], r);
    assert s.published + [] == s.published;
    if s.partial.Some? {
      ReceiptInChain(H, logId, s.published, [s.partial.value.0], r);
    }
  }

  lemma PublishedChain(H: Hash, logId: string, s: System)
    requires FilesMatch(H, logId, s)
    ensures IsName(logId) && ValidChain(logId, s.published)
    ensures s.partial.Some? ==> s.partial.value.1 <= |LineText(s.partial.value.0)|
  {
    hide ValidEntry, IsName, Continues, LineText;
  }

  lemma ReceiptInChain(H: Hash, logId: string, es: seq<Entry>, more: seq<Entry>, r: Receipt)
    requires IssuedBy(H, logId, es, r) && ValidChain(logId, es)
    ensures IssuedBy(H, logId, es + more, r) && r.checkpoint.treeSize <= |es + more|
    ensures ValidChain(logId, (es + more)[..r.checkpoint.treeSize])
  {
    IssuedByLonger(H, logId, es, more, r);
    ValidChainPrefix(logId, es, r.checkpoint.treeSize);
    hide BuildReceipt, BuildCheckpoint, ValidChain;
    assert (es + more)[..r.checkpoint.treeSize] == es[..r.checkpoint.treeSize];
  }

  /** Not vacuous: while nobody holds the lock and the log is undamaged, the steps of one append
      of a new envelope are enabled, and lead to the state and receipt of the atomic append. */
  lemma SoloAppend(H: Hash, logId: string, s: System, p: Pid, pub: Publication)
    requires Inv(H, logId, s) && s.procs == map[] && s.partial == None
    requires !EnvelopeSeen(s.published, pub.envelope)
    ensures AppendTo(H, logId, LogState(s.raw, s.file), pub).Success?
    ensures var (files, r) := AppendTo(H, logId, LogState(s.raw, s.file), pub).value;
            var line := LineText(NewEntry(H, logId, s.published, pub));
            var end := Run(H, logId, s,
              [BeginAppend(p, pub), CheckLog(p), WriteMore(p, |line|), ReplaceCheckpoint(p), Return(p)]);
            end.Some? && LogState(end.value.raw, end.value.file) == files && end.value.procs == map[]
            && end.value.issued == s.issued + [r]
  {
    hide *;
    InvParts(H, logId, s);
    UndamagedAccepted(H, logId, s, true);
    LockFree(s);
    PublishedEntries(H, logId, s);
    NewLineLong(H, logId, s.published, pub);
    AppendEffect(H, logId, s, pub);
    SoloSteps(H, logId, s, p, pub);
  }

  lemma LockFree(s: System)
    requires Locked(s) && s.procs == map[]
    ensures s.writer == None && s.readers == {}
  {
    forall p ensures p !in s.readers {
    }
  }

  lemma PublishedEntries(H: Hash, logId: string, s: System)
    requires FilesMatch(H, logId, s)
    ensures Published(H, logId, s.published)
  {
    hide Published;
  }

  lemma AppendEffect(H: Hash, logId: string, s: System, pub: Publication)
    requires VerifyUnlocked(H, logId, s.raw, s.file, true)
          == Success((s.published, BuildCheckpoint(H, logId, s.published)))
    requires !EnvelopeSeen(s.published, pub.envelope)
    ensures var e := NewEntry(H, logId, s.published, pub);
            var c := BuildCheckpoint(H, logId, s.published + [e]);
            AppendTo(H, logId, LogState(s.raw, s.file), pub) ==
            Success((LogState(s.raw + LineText(e), Holds(c)), BuildReceipt(H, s.published + [e], |s.published|, c)))
  {
    hide VerifyUnlocked, EnvelopeSeen, NewEntry, LineText, BuildCheckpoint, BuildReceipt;
  }

  lemma SoloSteps(H: Hash, logId: string, s: System, p: Pid, pub: Publication)
    requires s.procs == map[] && s.writer == None && s.readers == {}
    requires VerifyUnlocked(H, logId, s.raw, s.file, true)
          == Success((s.published, BuildCheckpoint(H, logId, s.published)))
    requires !EnvelopeSeen(s.published, pub.envelope) && |LineText(NewEntry(H, logId, s.published, pub))| > 0
    ensures var e := NewEntry(H, logId, s.published, pub);
            var c := BuildCheckpoint(H, logId, s.published + [e]);
            var end := Run(H, logId, s,
              [BeginAppend(p, pub), CheckLog(p), WriteMore(p, |LineText(e)|), ReplaceCheckpoint(p), Return(p)]);
            end.Some? && end.value.raw == s.raw + LineText(e) && end.value.file == Holds(c) && end.value.procs == map[]
            && end.value.issued == s.issued + [BuildReceipt(H, s.published + [e], |s.published|, c)]
  {
    hide VerifyUnlocked, EnvelopeSeen, NewEntry, LineText, BuildCheckpoint, BuildReceipt, Run;
    var e := NewEntry(H, logId, s.published, pub);
    var line := LineText(e);
    var c := BuildCheckpoint(H, logId, s.published + [e]);
    var r := BuildReceipt(H, s.published + [e], |s.published|, c);
    var s1 := At(s, p, AppendStart(pub)).(writer := Some(p));
    var s2 := At(s1, p, AppendWrite(s.published, e, 0)).(partial := Some((e, 0)));
    var s3 := At(s2, p, AppendWrite(s.published, e, |line|)).(raw := s.raw + line, partial := Some((e, |line|)));
    var s4 := At(s3, p, AppendReturn(r))
              .(file := Holds(c), base := s3.raw, published := s.published + [e], partial := None);
    var s5 := Released(s4, p).(issued := s.issued + [r]);
    assert Next(H, logId, s, BeginAppend(p, pub)) == Some(s1);
    assert Next(H, logId, s1, CheckLog(p)) == Some(s2);
    assert line[0..0 + |line|] == line;
    assert Next(H, logId, s2, WriteMore(p, |line|)) == Some(s3);
    assert Next(H, logId, s3, ReplaceCheckpoint(p)) == Some(s4);
    assert Next(H, logId, s4, Return(p)) == Some(s5);
    hide Next;
    RunFive(H, logId, s, [BeginAppend(p, pub), CheckLog(p), WriteMore(p, |line|), ReplaceCheckpoint(p), Return(p)],
            s1, s2, s3, s4, s5);
    assert s5.procs == map[];
  }

  lemma NewLineLong(H: Hash, logId: string, es: seq<Entry>, pub: Publication)
    requires !EnvelopeSeen(es, pub.envelope) && Published(H, logId, es)
    ensures |LineText(NewEntry(H, logId, es, pub))| > 0
  {
    LineTextShape(NewEntry(H, logId, es, pub));
  }

  lemma RunFive(H: Hash, logId: string, s: System, a: seq<Action>,
                s1: System, s2: System, s3: System, s4: System, s5: System)
    requires |a| == 5 && Next(H, logId, s, a[0]) == Some(s1) && Next(H, logId, s1, a[1]) == Some(s2)
    requires Next(H, logId, s2, a[2]) == Some(s3) && Next(H, logId, s3, a[3]) == Some(s4)
    requires Next(H, logId, s4, a[4]) == Some(s5)
    ensures Run(H, logId, s, a) == Some(s5)
  {
    hide Next;
    assert Run(H, logId, s4, a[4..]) == Some(s5) by { assert a[4..][1..] == []; }
    assert Run(H, logId, s3, a[3..]) == Some(s5) by { assert a[3..][1..] == a[4..]; }
    assert Run(H, logId, s2, a[2..]) == Some(s5) by { assert a[2..][1..] == a[3..]; }
    assert Run(H, logId, s1, a[1..]) == Some(s5) by { assert a[1..][1..] == a[2..]; }
  }
}

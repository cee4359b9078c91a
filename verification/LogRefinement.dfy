/** Interleaved appends amount to atomic ones: whatever the processes do, the published part of the
    files is what the appends that replaced the checkpoint would have left, run one after the
    other in that order (src/skill_native/transparency_log.py, `append`). */
module LogRefinement {
  import opened Wrappers
  import opened Hashing
  import opened LogEntries
  import opened LogText
  import opened LogChain
  import opened LogReceipts
  import opened LogProtocol
  import opened LogCrash

  /** What each process last asked to publish. */
  type Requests = map<Pid, Publication>

  function Noted(asked: Requests, a: Action): Requests {
    if a.BeginAppend? then asked[a.p := a.pub] else asked
  }

  /** What the steps ask to publish, in the order in which the checkpoint is replaced. */
  function Commits(actions: seq<Action>, asked: Requests): seq<Publication> {
    if actions == [] then []
    else
      var a := actions[0];
      (if a.ReplaceCheckpoint? && a.p in asked then [asked[a.p]] else []) + Commits(actions[1..], Noted(asked, a))
  }

  /** Atomic appends, one after the other; nothing if one of them is refused. */
  function AppendEach(H: Hash, logId: string, files: LogState, pubs: seq<Publication>): Option<(LogState, seq<Receipt>)>
    decreases |pubs|
  {
    hide AppendTo;
    if pubs == [] then Some((files, []))
    else match AppendTo(H, logId, files, pubs[0])
      case Failure(_) => None
      case Success((next, r)) =>
        match AppendEach(H, logId, next, pubs[1..])
        case None => None
        case Some((end, rs)) => Some((end, [r] + rs))
  }

  /** The files without a line that is being written. */
  function Settled(s: System): LogState { LogState(s.base, s.file) }

  /** The receipt that the one appending process is about to return. */
  function Pending(s: System): seq<Receipt> {
    if s.writer.Some? && s.writer.value in s.procs && s.procs[s.writer.value].AppendReturn?
    then [s.procs[s.writer.value].receipt] else []
  }

  /** How many receipts are lost to processes that die just before they return. */
  function Unreturned(H: Hash, logId: string, s: System, actions: seq<Action>): nat
    decreases |actions|
  {
    hide Next;
    if actions == [] then 0
    else match Next(H, logId, s, actions[0])
      case None => 0
      case Some(s') =>
        (if actions[0].Crash? && actions[0].p in s.procs && s.procs[actions[0].p].AppendReturn? then 1 else 0)
        + Unreturned(H, logId, s', actions[1..])
  }

  predicate Subsequence(a: seq<Receipt>, b: seq<Receipt>) {
    a == [] || (b != [] && ((a[0] == b[0] && Subsequence(a[1..], b[1..])) || Subsequence(a, b[1..])))
  }

  lemma {:induction false} SubsequenceLength(a: seq<Receipt>, b: seq<Receipt>)
    requires Subsequence(a, b)
    ensures |a| <= |b| && (|a| == |b| ==> a == b)
    decreases |b|
  {
    if a != [] {
      if a[0] == b[0] && Subsequence(a[1..], b[1..]) {
        SubsequenceLength(a[1..], b[1..]);
        assert a == [a[0]] + a[1..] && b == [b[0]] + b[1..];
      } else {
        SubsequenceLength(a, b[1..]);
      }
    }
  }

  /** Each process works on what it asked for. */
  ghost predicate Faithful(H: Hash, logId: string, s: System, asked: Requests) {
    forall p :: p in s.procs ==> WorksOn(H, logId, s.procs[p], p, asked)
  }

  ghost predicate WorksOn(H: Hash, logId: string, stage: Stage, p: Pid, asked: Requests) {
    match stage
    case AppendStart(pub) => p in asked && asked[p] == pub
    case AppendWrite(es, e, _) =>
      p in asked && e == NewEntry(H, logId, es, asked[p]) && !EnvelopeSeen(es, asked[p].envelope)
    case _ => true
  }

  /** A step that neither commits nor returns. */
  ghost predicate Quiet(s: System, s': System) {
    Settled(s') == Settled(s) && s'.issued == s.issued && Pending(s') == Pending(s)
  }

  // -------------------------------------------------------------- what each step does

  lemma FaithfulNext(H: Hash, logId: string, s: System, a: Action, asked: Requests)
    requires Faithful(H, logId, s, asked) && Next(H, logId, s, a).Some?
    ensures Faithful(H, logId, Next(H, logId, s, a).value, Noted(asked, a))
  {
    hide VerifyUnlocked, NewEntry, EnvelopeSeen, LineText, BuildCheckpoint, BuildReceipt, ParseLog, Judge, Translate;
  }

  lemma QuietNext(H: Hash, logId: string, s: System, a: Action)
    requires Locked(s) && Next(H, logId, s, a).Some?
    requires !a.ReplaceCheckpoint? && !a.Return?
    requires !(a.Crash? && a.p in s.procs && s.procs[a.p].AppendReturn?)
    ensures Quiet(s, Next(H, logId, s, a).value)
  {
    hide VerifyUnlocked, NewEntry, EnvelopeSeen, LineText, BuildCheckpoint, BuildReceipt, ParseLog, Judge, Translate;
  }

  lemma ReturnNext(H: Hash, logId: string, s: System, p: Pid)
    requires Locked(s) && Next(H, logId, s, Return(p)).Some?
    ensures var s' := Next(H, logId, s, Return(p)).value;
            Settled(s') == Settled(s) && s'.issued == s.issued + Pending(s) && |Pending(s)| == 1 && Pending(s') == []
  {
  }

  lemma LostNext(H: Hash, logId: string, s: System, p: Pid)
    requires Locked(s) && p in s.procs && s.procs[p].AppendReturn?
    ensures Next(H, logId, s, Crash(p)).Some?
    ensures var s' := Next(H, logId, s, Crash(p)).value;
            Settled(s') == Settled(s) && s'.issued == s.issued && |Pending(s)| == 1 && Pending(s') == []
  {
  }

  lemma CommitEnabled(H: Hash, logId: string, s: System, p: Pid)
    requires Next(H, logId, s, ReplaceCheckpoint(p)).Some?
    ensures p in s.procs && s.procs[p].AppendWrite?
  {
    hide LineText, BuildCheckpoint, BuildReceipt;
  }

  lemma CommitPending(s: System, s': System, p: Pid, r: Receipt)
    requires s.writer == Some(p) && p in s.procs && s.procs[p].AppendWrite?
    requires s'.writer == Some(p) && p in s'.procs && s'.procs[p] == AppendReturn(r)
    ensures Pending(s) == [] && Pending(s') == [r]
  {
  }

  lemma SettledConsistent(H: Hash, logId: string, s: System)
    requires FilesMatch(H, logId, s)
    ensures Consistent(H, logId, Settled(s), s.published)
  {
    hide Consistent;
  }

  lemma WholeLine(H: Hash, logId: string, s: System, e: Entry)
    requires FilesMatch(H, logId, s) && s.partial == Some((e, |LineText(e)|))
    ensures s.raw == s.base + LineText(e)
  {
    hide Consistent, ValidEntry, Continues;
    assert LineText(e)[..|LineText(e)|] == LineText(e);
  }

  /** The replacing of the checkpoint is where an append happens. */
  lemma CommitNext(H: Hash, logId: string, s: System, p: Pid, asked: Requests)
    requires Inv(H, logId, s) && Faithful(H, logId, s, asked) && Next(H, logId, s, ReplaceCheckpoint(p)).Some?
    ensures p in asked
    ensures var s' := Next(H, logId, s, ReplaceCheckpoint(p)).value;
            && AppendTo(H, logId, Settled(s), asked[p]).Success?
            && var (files, r) := AppendTo(H, logId, Settled(s), asked[p]).value;
               Settled(s') == files && s'.issued == s.issued && Pending(s) == [] && Pending(s') == [r]
  {
    hide *;
    var s' := Next(H, logId, s, ReplaceCheckpoint(p)).value;
    CommitEnabled(H, logId, s, p);
    WriterStage(H, logId, s, p);
    FaithfulWriter(H, logId, s, p, asked);
    var e := ReplaceEffect(H, logId, s, p);
    InvParts(H, logId, s);
    SettledConsistent(H, logId, s);
    WholeLine(H, logId, s, e);
    AppendSucceeds(H, logId, Settled(s), s.published, asked[p]);
    NextInv(H, logId, s, ReplaceCheckpoint(p));
    WriterAfter(H, logId, s', p);
    CommitPending(s, s', p, s'.procs[p].receipt);
    SettledFields(s);
    SettledFields(s');
  }

  lemma SettledFields(s: System)
    ensures Settled(s) == LogState(s.base, s.file)
  {
  }

  lemma FaithfulWriter(H: Hash, logId: string, s: System, p: Pid, asked: Requests)
    requires Faithful(H, logId, s, asked) && p in s.procs && s.procs[p].AppendWrite?
    ensures p in asked && s.procs[p].e == NewEntry(H, logId, s.procs[p].es, asked[p])
    ensures !EnvelopeSeen(s.procs[p].es, asked[p].envelope)
  {
    hide NewEntry, EnvelopeSeen;
    assert WorksOn(H, logId, s.procs[p], p, asked);
  }

  lemma WriterAfter(H: Hash, logId: string, s: System, p: Pid)
    requires Inv(H, logId, s) && p in s.procs && s.procs[p].AppendReturn?
    ensures s.writer == Some(p)
  {
    hide FilesMatch, StageMatches, IssuedBy;
  }

  // --------------------------------------------------------------------- the refinement

  /** What a run amounts to, from any state: the atomic appends of what it commits, with receipts
      in the same order, of which the ones returned are a part, and all of them but those still
      pending and those lost with their process. */
  ghost predicate Amounts(H: Hash, logId: string, s: System, actions: seq<Action>, asked: Requests) {
    var s' := Run(H, logId, s, actions);
    var atomic := AppendEach(H, logId, Settled(s), Commits(actions, asked));
    && s'.Some? && atomic.Some? && atomic.value.0 == Settled(s'.value)
    && |s.issued| <= |s'.value.issued| && s'.value.issued[..|s.issued|] == s.issued
    && Subsequence(s'.value.issued[|s.issued|..], Pending(s) + atomic.value.1)
    && |Pending(s)| + |atomic.value.1|
       == |s'.value.issued| - |s.issued| + Unreturned(H, logId, s, actions) + |Pending(s'.value)|
  }

  lemma {:induction false} RunAmounts(H: Hash, logId: string, s: System, actions: seq<Action>, asked: Requests)
    requires Inv(H, logId, s) && Faithful(H, logId, s, asked) && Run(H, logId, s, actions).Some?
    ensures Amounts(H, logId, s, actions, asked)
    decreases |actions|
  {
    hide *;
    if actions == [] {
      NoSteps(H, logId, s, asked);
    } else {
      RunHead(H, logId, s, actions);
      var a := actions[0];
      var s1 := Next(H, logId, s, a).value;
      NextInv(H, logId, s, a);
      FaithfulNext(H, logId, s, a, asked);
      InvParts(H, logId, s);
      RunAmounts(H, logId, s1, actions[1..], Noted(asked, a));
      if a.ReplaceCheckpoint? {
        CommitNext(H, logId, s, a.p, asked);
        CommitFirst(H, logId, s, actions, asked);
      } else if a.Return? {
        ReturnNext(H, logId, s, a.p);
        ReturnFirst(H, logId, s, actions, asked);
      } else if a.Crash? && a.p in s.procs && s.procs[a.p].AppendReturn? {
        LostNext(H, logId, s, a.p);
        LostFirst(H, logId, s, actions, asked);
      } else {
        QuietNext(H, logId, s, a);
        QuietFirst(H, logId, s, actions, asked);
      }
    }
  }

  lemma NoSteps(H: Hash, logId: string, s: System, asked: Requests)
    ensures Amounts(H, logId, s, [], asked)
  {
    hide Settled, Pending;
    assert s.issued[|s.issued|..] == [] && s.issued[..|s.issued|] == s.issued;
  }

  lemma RunHead(H: Hash, logId: string, s: System, actions: seq<Action>)
    requires actions != [] && Run(H, logId, s, actions).Some?
    ensures Next(H, logId, s, actions[0]).Some?
    ensures Run(H, logId, Next(H, logId, s, actions[0]).value, actions[1..]) == Run(H, logId, s, actions)
  {
    hide Next;
  }

  lemma QuietFirst(H: Hash, logId: string, s: System, actions: seq<Action>, asked: Requests)
    requires actions != [] && Next(H, logId, s, actions[0]).Some?
    requires var a := actions[0];
             && !a.ReplaceCheckpoint? && !a.Return? && !(a.Crash? && a.p in s.procs && s.procs[a.p].AppendReturn?)
             && Quiet(s, Next(H, logId, s, a).value)
             && Amounts(H, logId, Next(H, logId, s, a).value, actions[1..], Noted(asked, a))
    ensures Amounts(H, logId, s, actions, asked)
  {
    hide Next, Settled, Pending, AppendEach, Noted, Subsequence;
    var a := actions[0];
    assert Commits(actions, asked) == Commits(actions[1..], Noted(asked, a));
  }

  lemma CommitFirst(H: Hash, logId: string, s: System, actions: seq<Action>, asked: Requests)
    requires actions != [] && actions[0].ReplaceCheckpoint? && Next(H, logId, s, actions[0]).Some?
    requires actions[0].p in asked
    requires AppendTo(H, logId, Settled(s), asked[actions[0].p]).Success?
    requires var s1 := Next(H, logId, s, actions[0]).value;
             var (files, r) := AppendTo(H, logId, Settled(s), asked[actions[0].p]).value;
             && Settled(s1) == files && s1.issued == s.issued && Pending(s) == [] && Pending(s1) == [r]
             && Amounts(H, logId, s1, actions[1..], Noted(asked, actions[0]))
    ensures Amounts(H, logId, s, actions, asked)
  {
    hide Next, Settled, Pending, Noted, Subsequence, AppendTo;
    var a := actions[0];
    var pubs, rest := Commits(actions, asked), Commits(actions[1..], Noted(asked, a));
    assert pubs == [asked[a.p]] + rest && pubs[1..] == rest;
    var (files, r) := AppendTo(H, logId, Settled(s), asked[a.p]).value;
    var later := AppendEach(H, logId, files, rest).value.1;
    assert AppendEach(H, logId, Settled(s), pubs).value.1 == [r] + later;
    assert [] + ([r] + later) == [r] + later;
  }

  lemma ReturnFirst(H: Hash, logId: string, s: System, actions: seq<Action>, asked: Requests)
    requires actions != [] && actions[0].Return? && Next(H, logId, s, actions[0]).Some?
    requires var s1 := Next(H, logId, s, actions[0]).value;
             && Settled(s1) == Settled(s) && s1.issued == s.issued + Pending(s)
             && |Pending(s)| == 1 && Pending(s1) == []
             && Amounts(H, logId, s1, actions[1..], Noted(asked, actions[0]))
    ensures Amounts(H, logId, s, actions, asked)
  {
    hide Next, Settled, Pending, AppendEach, Noted, Subsequence;
    var a := actions[0];
    assert Commits(actions, asked) == Commits(actions[1..], Noted(asked, a));
    hide Run, Commits, Unreturned;
    RunStep(H, logId, s, actions);
    var s1, s' := Next(H, logId, s, a).value, Run(H, logId, s, actions).value;
    var r, later := Pending(s)[0], AppendEach(H, logId, Settled(s), Commits(actions, asked)).value.1;
    assert Pending(s) == [r];
    OneMore(s.issued, r, s'.issued);
    assert [] + later == later;
    SubsequenceBoth(r, s'.issued[|s.issued| + 1..], later);
  }

  /** A list that goes on from another with one element more. */
  lemma OneMore(before: seq<Receipt>, r: Receipt, after: seq<Receipt>)
    requires |before| + 1 <= |after| && after[..|before| + 1] == before + [r]
    ensures after[..|before|] == before && after[|before|..] == [r] + after[|before| + 1..]
  {
    assert after[..|before| + 1][..|before|] == after[..|before|];
    assert after[..|before| + 1][|before|] == after[|before|];
  }

  lemma RunStep(H: Hash, logId: string, s: System, actions: seq<Action>)
    requires actions != [] && Next(H, logId, s, actions[0]).Some?
    ensures var s1 := Next(H, logId, s, actions[0]).value;
            && Run(H, logId, s, actions) == Run(H, logId, s1, actions[1..])
            && Unreturned(H, logId, s, actions) ==
               (if actions[0].Crash? && actions[0].p in s.procs && s.procs[actions[0].p].AppendReturn? then 1 else 0)
               + Unreturned(H, logId, s1, actions[1..])
  {
    hide Next;
  }

  lemma LostFirst(H: Hash, logId: string, s: System, actions: seq<Action>, asked: Requests)
    requires actions != [] && actions[0].Crash? && Next(H, logId, s, actions[0]).Some?
    requires actions[0].p in s.procs && s.procs[actions[0].p].AppendReturn?
    requires var s1 := Next(H, logId, s, actions[0]).value;
             && Settled(s1) == Settled(s) && s1.issued == s.issued && |Pending(s)| == 1 && Pending(s1) == []
             && Amounts(H, logId, s1, actions[1..], Noted(asked, actions[0]))
    ensures Amounts(H, logId, s, actions, asked)
  {
    hide Next, Settled, Pending, AppendEach, Noted, Subsequence;
    var a := actions[0];
    assert Commits(actions, asked) == Commits(actions[1..], Noted(asked, a));
    var s' := Run(H, logId, s, actions).value;
    var later := AppendEach(H, logId, Settled(s), Commits(actions, asked)).value.1;
    assert [] + later == later;
    SubsequenceSkip(Pending(s)[0], s'.issued[|s.issued|..], later);
    assert Pending(s) == [Pending(s)[0]];
  }

  lemma SubsequenceBoth(r: Receipt, a: seq<Receipt>, b: seq<Receipt>)
    requires Subsequence(a, b)
    ensures Subsequence([r] + a, [r] + b)
  {
    assert ([r] + a)[1..] == a && ([r] + b)[1..] == b;
  }

  lemma SubsequenceSkip(r: Receipt, a: seq<Receipt>, b: seq<Receipt>)
    requires Subsequence(a, b)
    ensures Subsequence(a, [r] + b)
  {
    assert ([r] + b)[1..] == b;
  }

  /** Refinement: from any consistent log, the files at the end of a run, up to a line that is being
      written or was left unfinished, are those of the atomic appends of what was committed, in
      the order of the commits, and no receipt is returned that these would not have returned. If
      no process died just before returning and none is about to return, the receipts returned
      are all of theirs, in their order. */
  lemma RunRefines(H: Hash, logId: string, files: LogState, es: seq<Entry>, actions: seq<Action>)
    requires Consistent(H, logId, files, es) && Run(H, logId, Start(files, es), actions).Some?
    ensures var s := Run(H, logId, Start(files, es), actions).value;
            var atomic := AppendEach(H, logId, files, Commits(actions, map[]));
            && atomic.Some? && atomic.value.0 == Settled(s)
            && Consistent(H, logId, atomic.value.0, s.published)
            && (s.partial == None ==> LogState(s.raw, s.file) == atomic.value.0)
            && Subsequence(s.issued, atomic.value.1)
            && (Unreturned(H, logId, Start(files, es), actions) == 0 && Pending(s) == [] ==> s.issued == atomic.value.1)
  {
    var start := Start(files, es);
    assert Settled(start) == files && Pending(start) == [] && start.issued == [];
    assert Faithful(H, logId, start, map[]);
    hide *;
    StartInv(H, logId, files, es);
    RunInv(H, logId, start, actions);
    RunAmounts(H, logId, start, actions, map[]);
    var s := Run(H, logId, start, actions).value;
    InvParts(H, logId, s);
    SettledConsistent(H, logId, s);
    SettledFields(s);
    if s.partial == None { RawSettled(H, logId, s); }
    FromStart(H, logId, start, actions);
    SubsequenceLength(s.issued, AppendEach(H, logId, files, Commits(actions, map[])).value.1);
  }

  lemma RawSettled(H: Hash, logId: string, s: System)
    requires FilesMatch(H, logId, s) && s.partial == None
    ensures s.raw == s.base
  {
    hide Consistent;
  }

  lemma FromStart(H: Hash, logId: string, start: System, actions: seq<Action>)
    requires Amounts(H, logId, start, actions, map[]) && Pending(start) == [] && start.issued == []
    ensures var s := Run(H, logId, start, actions).value;
            var atomic := AppendEach(H, logId, Settled(start), Commits(actions, map[]));
            && atomic.Some? && atomic.value.0 == Settled(s) && Subsequence(s.issued, atomic.value.1)
            && |atomic.value.1| == |s.issued| + Unreturned(H, logId, start, actions) + |Pending(s)|
  {
    hide Run, Settled, Pending, AppendEach, Commits, Subsequence, Unreturned;
    var s := Run(H, logId, start, actions).value;
    var later := AppendEach(H, logId, Settled(start), Commits(actions, map[])).value.1;
    assert s.issued[0..] == s.issued && [] + later == later;
  }

  /** Nor is anything refused that an atomic append would let through: the check of an append lets
      the process write exactly when the atomic append on the same files would succeed. */
  lemma CheckAgrees(H: Hash, logId: string, s: System, p: Pid)
    requires p in s.procs && s.procs[p].AppendStart?
    ensures Next(H, logId, s, CheckLog(p)).Some?
    ensures p in Next(H, logId, s, CheckLog(p)).value.procs <==>
            AppendTo(H, logId, LogState(s.raw, s.file), s.procs[p].pub).Success?
  {
    hide VerifyUnlocked, NewEntry, EnvelopeSeen, LineText, BuildCheckpoint, BuildReceipt;
  }

  /** What the processes last asked for, at the end of a list of steps. */
  function AskedFor(actions: seq<Action>, asked: Requests): Requests {
    if actions == [] then asked else AskedFor(actions[1..], Noted(asked, actions[0]))
  }

  lemma {:induction false} RunFaithful(H: Hash, logId: string, s: System, actions: seq<Action>, asked: Requests)
    requires Faithful(H, logId, s, asked) && Run(H, logId, s, actions).Some?
    ensures Faithful(H, logId, Run(H, logId, s, actions).value, AskedFor(actions, asked))
    decreases |actions|
  {
    hide Next, Faithful, Noted;
    if actions != [] {
      FaithfulNext(H, logId, s, actions[0], asked);
      RunFaithful(H, logId, Next(H, logId, s, actions[0]).value, actions[1..], Noted(asked, actions[0]));
    }
  }

  lemma FaithfulStart(H: Hash, logId: string, s: System, p: Pid, asked: Requests)
    requires Faithful(H, logId, s, asked) && p in s.procs && s.procs[p].AppendStart?
    ensures p in asked && asked[p] == s.procs[p].pub
  {
    hide NewEntry, EnvelopeSeen;
    assert WorksOn(H, logId, s.procs[p], p, asked);
  }

  lemma NotWriteStage(s: System, p: Pid)
    requires Locked(s) && p in s.procs && s.procs[p].AppendStart?
    ensures !Writing(s)
  {
  }

  lemma RefusedRaw(H: Hash, logId: string, s: System, p: Pid)
    requires p in s.procs && s.procs[p].AppendStart? && VerifyUnlocked(H, logId, s.raw, s.file, true).Failure?
    ensures AppendTo(H, logId, LogState(s.raw, s.file), s.procs[p].pub).Failure?
  {
    hide VerifyUnlocked;
  }

  /** The refused side over runs: a process that asked for an append is turned away by its check
      exactly when the atomic append would be refused after those committed so far, or when some
      process died midway before. */
  lemma RefusedOverRuns(H: Hash, logId: string, files: LogState, es: seq<Entry>, actions: seq<Action>, p: Pid)
    requires Consistent(H, logId, files, es) && Run(H, logId, Start(files, es), actions).Some?
    requires var s := Run(H, logId, Start(files, es), actions).value;
             p in s.procs && s.procs[p].AppendStart?
    ensures var s := Run(H, logId, Start(files, es), actions).value;
            var asked := AskedFor(actions, map[]);
            var atomic := AppendEach(H, logId, files, Commits(actions, map[]));
            && Next(H, logId, s, CheckLog(p)).Some? && p in asked && atomic.Some?
            && (p !in Next(H, logId, s, CheckLog(p)).value.procs <==>
                  || AppendTo(H, logId, atomic.value.0, asked[p]).Failure?
                  || SomeDiedMidway(H, logId, Start(files, es), actions))
  {
    var start := Start(files, es);
    assert Faithful(H, logId, start, map[]);
    hide *;
    var s := Run(H, logId, start, actions).value;
    StartInv(H, logId, files, es);
    StartUndamaged(files, es);
    RunInv(H, logId, start, actions);
    RunDamaged(H, logId, start, actions);
    RunFaithful(H, logId, start, actions, map[]);
    FaithfulStart(H, logId, s, p, AskedFor(actions, map[]));
    RunRefines(H, logId, files, es, actions);
    CheckAgrees(H, logId, s, p);
    InvParts(H, logId, s);
    NotWriteStage(s, p);
    if Damaged(s) {
      DamageRefused(H, logId, s, true);
      RefusedRaw(H, logId, s, p);
    } else {
      NotDamaged(s);
    }
  }
}

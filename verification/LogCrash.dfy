/** Which crashes do harm: exactly those of a process that has written part of its line, or all of
    it, and has not yet replaced the checkpoint
    (src/skill_native/transparency_log.py, `append`). */
module LogCrash {
  import opened Wrappers
  import opened Hashing
  import opened LogEntries
  import opened LogText
  import opened LogChain
  import opened LogReceipts
  import opened LogProtocol

  /** The process has put at least one character of its line into the log, and its checkpoint is
      not yet in place. */
  predicate Midway(s: System, p: Pid) {
    p in s.procs && s.procs[p].AppendWrite? && s.procs[p].done > 0
  }

  predicate KillsMidway(s: System, a: Action) {
    a.Crash? && Midway(s, a.p)
  }

  /** Some process of the run died midway. */
  predicate SomeDiedMidway(H: Hash, logId: string, s: System, actions: seq<Action>)
    decreases |actions|
  {
    hide Next;
    if actions == [] then false
    else match Next(H, logId, s, actions[0])
      case None => false
      case Some(s') => KillsMidway(s, actions[0]) || SomeDiedMidway(H, logId, s', actions[1..])
  }

  lemma CrashMove(H: Hash, logId: string, s: System, p: Pid)
    requires p in s.procs
    ensures Next(H, logId, s, Crash(p)) ==
            Some(if s.procs[p].AppendWrite? && !Midway(s, p) then Released(s, p).(partial := None) else Released(s, p))
  {
    hide Released;
  }

  lemma WriterDamage(s: System, p: Pid)
    requires p in s.procs && s.procs[p].AppendWrite? && s.writer == Some(p) && s.partial.Some?
    ensures !Damaged(s) && Damaged(Released(s, p)) && !Damaged(Released(s, p).(partial := None))
  {
  }

  lemma OtherDamage(s: System, p: Pid)
    requires !Writing(s) && p in s.procs
    ensures Damaged(Released(s, p)) <==> Damaged(s)
  {
  }

  lemma NotMidway(s: System, p: Pid)
    requires p in s.procs && !s.procs[p].AppendWrite?
    ensures !Midway(s, p)
  {
  }

  /** A crash damages an undamaged log exactly when it comes midway. */
  lemma CrashDamages(H: Hash, logId: string, s: System, p: Pid)
    requires Inv(H, logId, s) && p in s.procs
    ensures Next(H, logId, s, Crash(p)).Some?
    ensures Damaged(Next(H, logId, s, Crash(p)).value) <==> Damaged(s) || Midway(s, p)
  {
    hide *;
    CrashMove(H, logId, s, p);
    if s.procs[p].AppendWrite? {
      WriterStage(H, logId, s, p);
      WriterDamage(s, p);
    } else {
      NotMidway(s, p);
      InvParts(H, logId, s);
      NotWriting(s, p);
      OtherDamage(s, p);
    }
  }

  /** No other step damages an undamaged log. */
  lemma OthersHarmless(H: Hash, logId: string, s: System, a: Action)
    requires Locked(s) && !Damaged(s) && !a.Crash? && Next(H, logId, s, a).Some?
    ensures !Damaged(Next(H, logId, s, a).value)
  {
    hide VerifyUnlocked, EnvelopeSeen, NewEntry, LineText, BuildCheckpoint, BuildReceipt, ParseLog, Judge, Translate;
  }

  lemma DamageStep(H: Hash, logId: string, s: System, a: Action)
    requires Inv(H, logId, s) && Next(H, logId, s, a).Some?
    ensures Damaged(Next(H, logId, s, a).value) <==> Damaged(s) || KillsMidway(s, a)
  {
    hide Inv, Next, Damaged, Midway;
    if Damaged(s) {
      DamagedNext(H, logId, s, a);
    } else if a.Crash? {
      CrashEnabled(H, logId, s, a.p);
      CrashDamages(H, logId, s, a.p);
    } else {
      InvParts(H, logId, s);
      OthersHarmless(H, logId, s, a);
    }
  }

  lemma CrashEnabled(H: Hash, logId: string, s: System, p: Pid)
    requires Next(H, logId, s, Crash(p)).Some?
    ensures p in s.procs
  {
  }

  /** Over whole runs: the log is damaged at the end exactly when it was at the start or some
      process died midway. */
  lemma {:induction false} RunDamaged(H: Hash, logId: string, s: System, actions: seq<Action>)
    requires Inv(H, logId, s) && Run(H, logId, s, actions).Some?
    ensures Damaged(Run(H, logId, s, actions).value) <==> Damaged(s) || SomeDiedMidway(H, logId, s, actions)
    decreases |actions|
  {
    hide Inv, Next, Damaged, KillsMidway;
    if actions != [] {
      NextInv(H, logId, s, actions[0]);
      DamageStep(H, logId, s, actions[0]);
      RunDamaged(H, logId, Next(H, logId, s, actions[0]).value, actions[1..]);
    }
  }

  lemma NotDamaged(s: System)
    requires !Damaged(s) && !Writing(s)
    ensures s.partial == None
  {
    hide Writing;
  }

  lemma StartUndamaged(files: LogState, es: seq<Entry>)
    ensures !Damaged(Start(files, es))
  {
  }

  /** The exact condition, from any consistent log: while no line is being written, the check of
      `append` refuses exactly when some process died midway. */
  lemma RefusedExactly(H: Hash, logId: string, files: LogState, es: seq<Entry>, actions: seq<Action>)
    requires Consistent(H, logId, files, es) && Run(H, logId, Start(files, es), actions).Some?
    requires !Writing(Run(H, logId, Start(files, es), actions).value)
    ensures var s := Run(H, logId, Start(files, es), actions).value;
            VerifyUnlocked(H, logId, s.raw, s.file, true).Failure? <==>
            SomeDiedMidway(H, logId, Start(files, es), actions)
  {
    hide *;
    var start := Start(files, es);
    var s := Run(H, logId, start, actions).value;
    StartInv(H, logId, files, es);
    StartUndamaged(files, es);
    RunInv(H, logId, start, actions);
    RunDamaged(H, logId, start, actions);
    InvParts(H, logId, s);
    if Damaged(s) {
      DamageRefused(H, logId, s, true);
    } else {
      NotDamaged(s);
      UndamagedAccepted(H, logId, s, true);
    }
  }

  /** When a process dies midway, the files stay as they are whatever is done later, and every later
      verification and append is refused. */
  lemma CrashForEver(H: Hash, logId: string, s: System, p: Pid, later: seq<Action>)
    requires Inv(H, logId, s) && Midway(s, p)
    requires Run(H, logId, s, [Crash(p)] + later).Some?
    ensures var s' := Run(H, logId, s, [Crash(p)] + later).value;
            && s'.raw == s.raw && s'.file == s.file && s'.published == s.published
            && VerifyUnlocked(H, logId, s'.raw, s'.file, true).Failure?
            && VerifyUnlocked(H, logId, s'.raw, s'.file, false).Failure?
            && forall q :: q in s'.procs && s'.procs[q].VerifyDone? ==> s'.procs[q].result.Failure?
  {
    CrashKeepsFiles(H, logId, s, p);
    hide Inv, Next, Damaged, VerifyUnlocked;
    CrashDamages(H, logId, s, p);
    var actions := [Crash(p)] + later;
    var s1 := Next(H, logId, s, Crash(p)).value;
    assert actions[0] == Crash(p) && actions[1..] == later;
    assert Run(H, logId, s, actions) == Run(H, logId, s1, later);
    hide Run;
    NextInv(H, logId, s, Crash(p));
    DamagePermanent(H, logId, s1, later);
  }

  lemma CrashKeepsFiles(H: Hash, logId: string, s: System, p: Pid)
    requires Midway(s, p)
    ensures Next(H, logId, s, Crash(p)).Some?
    ensures var s' := Next(H, logId, s, Crash(p)).value;
            s'.raw == s.raw && s'.file == s.file && s'.published == s.published && p !in s'.procs
  {
  }

  /** Such a crash can happen on any consistent log: a process that publishes a new envelope may die
      after any number n > 0 of the characters of its line. */
  lemma CrashReached(H: Hash, logId: string, files: LogState, es: seq<Entry>, p: Pid, pub: Publication, n: nat)
    requires Consistent(H, logId, files, es) && !EnvelopeSeen(es, pub.envelope)
    requires 0 < n <= |LineText(NewEntry(H, logId, es, pub))|
    ensures var line := LineText(NewEntry(H, logId, es, pub));
            var end := Run(H, logId, Start(files, es), [BeginAppend(p, pub), CheckLog(p), WriteMore(p, n), Crash(p)]);
            && end.Some? && Damaged(end.value)
            && end.value.raw == files.raw + line[..n] && end.value.file == files.file
            && VerifyUnlocked(H, logId, end.value.raw, end.value.file, true).Failure?
            && VerifyUnlocked(H, logId, end.value.raw, end.value.file, false).Failure?
  {
    hide *;
    var start := Start(files, es);
    StartInv(H, logId, files, es);
    StartFields(files, es);
    InvParts(H, logId, start);
    UndamagedAccepted(H, logId, start, true);
    var actions := [BeginAppend(p, pub), CheckLog(p), WriteMore(p, n), Crash(p)];
    CrashSteps(H, logId, start, p, pub, n);
    RunInv(H, logId, start, actions);
    var s := Run(H, logId, start, actions).value;
    InvParts(H, logId, s);
    DamageRefused(H, logId, s, true);
    DamageRefused(H, logId, s, false);
  }

  lemma StartFields(files: LogState, es: seq<Entry>)
    ensures var s := Start(files, es);
            && s.raw == files.raw && s.file == files.file && s.published == es && s.partial == None
            && s.procs == map[] && s.writer == None && s.readers == {}
  {
  }

  lemma CrashSteps(H: Hash, logId: string, s: System, p: Pid, pub: Publication, n: nat)
    requires s.procs == map[] && s.writer == None && s.readers == {}
    requires VerifyUnlocked(H, logId, s.raw, s.file, true)
          == Success((s.published, BuildCheckpoint(H, logId, s.published)))
    requires !EnvelopeSeen(s.published, pub.envelope)
    requires 0 < n <= |LineText(NewEntry(H, logId, s.published, pub))|
    ensures var line := LineText(NewEntry(H, logId, s.published, pub));
            var end := Run(H, logId, s, [BeginAppend(p, pub), CheckLog(p), WriteMore(p, n), Crash(p)]);
            end.Some? && Damaged(end.value) && end.value.raw == s.raw + line[..n] && end.value.file == s.file
  {
    hide VerifyUnlocked, EnvelopeSeen, NewEntry, LineText, BuildCheckpoint, BuildReceipt, Run;
    var e := NewEntry(H, logId, s.published, pub);
    var line := LineText(e);
    var s1 := At(s, p, AppendStart(pub)).(writer := Some(p));
    var s2 := At(s1, p, AppendWrite(s.published, e, 0)).(partial := Some((e, 0)));
    var s3 := At(s2, p, AppendWrite(s.published, e, n)).(raw := s.raw + line[..n], partial := Some((e, n)));
    var s4 := Released(s3, p);
    assert Next(H, logId, s, BeginAppend(p, pub)) == Some(s1);
    assert Next(H, logId, s1, CheckLog(p)) == Some(s2);
    assert line[0..0 + n] == line[..n];
    assert Next(H, logId, s2, WriteMore(p, n)) == Some(s3);
    assert Next(H, logId, s3, Crash(p)) == Some(s4);
    hide Next;
    RunFour(H, logId, s, [BeginAppend(p, pub), CheckLog(p), WriteMore(p, n), Crash(p)], s1, s2, s3, s4);
  }

  lemma RunFour(H: Hash, logId: string, s: System, a: seq<Action>, s1: System, s2: System, s3: System, s4: System)
    requires |a| == 4 && Next(H, logId, s, a[0]) == Some(s1) && Next(H, logId, s1, a[1]) == Some(s2)
    requires Next(H, logId, s2, a[2]) == Some(s3) && Next(H, logId, s3, a[3]) == Some(s4)
    ensures Run(H, logId, s, a) == Some(s4)
  {
    hide Next;
    assert Run(H, logId, s3, a[3..]) == Some(s4) by { assert a[3..][1..] == []; }
    assert Run(H, logId, s2, a[2..]) == Some(s4) by { assert a[2..][1..] == a[3..]; }
    assert Run(H, logId, s1, a[1..]) == Some(s4) by { assert a[1..][1..] == a[2..]; }
  }
}

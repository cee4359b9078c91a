/** The diff between two snapshots of a workspace (src/skill_native/coding_agent.py,
    `_build_workspace_diff`; src/skill_native/coding_contract.py, `CodingWorkspaceDiff`). */
module WorkspaceDiff {
  import opened Wrappers
  import opened Strings

  datatype Kind = File | Symlink

  datatype FileState = FileState(kind: Kind, sha256: string, size: nat, target: Option<string>, leavesWorkspace: bool)

  type Snapshot = map<string, FileState>

  datatype Status = Added | Removed | Modified

  datatype Change = Change(
    path: string,
    status: Status,
    beforeKind: Option<Kind>,
    afterKind: Option<Kind>,
    beforeSha256: Option<string>,
    afterSha256: Option<string>,
    beforeSize: nat,
    afterSize: nat,
    bytesChanged: nat,
    target: Option<string>)

  datatype Diff = Diff(
    changes: seq<Change>,
    changedFiles: nat,
    changedBytes: nat,
    disallowed: seq<string>,
    protected: seq<string>,
    unsafeLinks: seq<string>)

  function Lookup(s: Snapshot, path: string): Option<FileState> {
    if path in s then Some(s[path]) else None
  }

  function SizeOf(s: Option<FileState>): nat { if s.Some? then s.value.size else 0 }

  function MakeChange(path: string, b: Option<FileState>, a: Option<FileState>): (c: Change)
    requires b != a
    ensures c.path == path
  {
    Change(
      path,
      if b == None then Added else if a == None then Removed else Modified,
      if b.Some? then Some(b.value.kind) else None,
      if a.Some? then Some(a.value.kind) else None,
      if b.Some? then Some(b.value.sha256) else None,
      if a.Some? then Some(a.value.sha256) else None,
      SizeOf(b),
      SizeOf(a),
      if SizeOf(b) < SizeOf(a) then SizeOf(a) else SizeOf(b),
      if a.Some? then a.value.target else b.value.target)
  }

  /** The changes at the given paths, in their order. */
  function Changes(before: Snapshot, after: Snapshot, paths: seq<string>): seq<Change> {
    if paths == [] then []
    else
      var last := paths[|paths| - 1];
      Changes(before, after, paths[..|paths| - 1])
      + (if Lookup(before, last) == Lookup(after, last) then []
         else [MakeChange(last, Lookup(before, last), Lookup(after, last))])
  }

  function Paths(changes: seq<Change>): (r: seq<string>)
    ensures |r| == |changes| && forall i :: 0 <= i < |changes| ==> r[i] == changes[i].path
  {
    seq(|changes|, i requires 0 <= i < |changes| => changes[i].path)
  }

  function Bytes(changes: seq<Change>): nat {
    if changes == [] then 0 else Bytes(changes[..|changes| - 1]) + changes[|changes| - 1].bytesChanged
  }

  /** The paths at which the snapshots differ. */
  function Differing(before: Snapshot, after: Snapshot): set<string> {
    set p | p in before.Keys + after.Keys && Lookup(before, p) != Lookup(after, p)
  }

  // ---------------------------------------------------- reading a diff forwards and back

  /** A snapshot as far as a list of changes can tell: whether a link leads out of the workspace is
      not part of a change. */
  function Plain(s: Snapshot): Snapshot {
    map p | p in s :: s[p].(leavesWorkspace := false)
  }

  function ApplyOne(s: Snapshot, c: Change): Snapshot {
    if c.afterKind.Some? && c.afterSha256.Some?
    then s[c.path := FileState(c.afterKind.value, c.afterSha256.value, c.afterSize, c.target, false)]
    else s - {c.path}
  }

  function Apply(s: Snapshot, changes: seq<Change>): Snapshot {
    if changes == [] then s else ApplyOne(Apply(s, changes[..|changes| - 1]), changes[|changes| - 1])
  }

  /** A snapshot without the targets of links: a change names only one target, the later one. */
  function Bare(s: Snapshot): Snapshot {
    map p | p in s :: s[p].(leavesWorkspace := false, target := None)
  }

  function UndoOne(s: Snapshot, c: Change): Snapshot {
    if c.beforeKind.Some? && c.beforeSha256.Some?
    then s[c.path := FileState(c.beforeKind.value, c.beforeSha256.value, c.beforeSize, None, false)]
    else s - {c.path}
  }

  function Undo(s: Snapshot, changes: seq<Change>): Snapshot {
    if changes == [] then s else UndoOne(Undo(s, changes[..|changes| - 1]), changes[|changes| - 1])
  }

  lemma ApplySnoc(s: Snapshot, changes: seq<Change>, c: Change)
    ensures Apply(s, changes + [c]) == ApplyOne(Apply(s, changes), c)
  {
    assert (changes + [c])[..|changes|] == changes;
  }

  lemma UndoSnoc(s: Snapshot, changes: seq<Change>, c: Change)
    ensures Undo(s, changes + [c]) == UndoOne(Undo(s, changes), c)
  {
    assert (changes + [c])[..|changes|] == changes;
  }

  lemma ApplyOneAt(s: Snapshot, before: Snapshot, after: Snapshot, path: string, p: string)
    requires Lookup(before, path) != Lookup(after, path)
    ensures Lookup(ApplyOne(s, MakeChange(path, Lookup(before, path), Lookup(after, path))), p) ==
            if p == path then Lookup(Plain(after), p) else Lookup(s, p)
  {
  }

  lemma UndoOneAt(s: Snapshot, before: Snapshot, after: Snapshot, path: string, p: string)
    requires Lookup(before, path) != Lookup(after, path)
    ensures Lookup(UndoOne(s, MakeChange(path, Lookup(before, path), Lookup(after, path))), p) ==
            if p == path then Lookup(Bare(before), p) else Lookup(s, p)
  {
  }

  lemma SamePlain(before: Snapshot, after: Snapshot, p: string)
    requires Lookup(before, p) == Lookup(after, p)
    ensures Lookup(Plain(before), p) == Lookup(Plain(after), p) && Lookup(Bare(before), p) == Lookup(Bare(after), p)
  {
  }

  /** At the paths that differ the later state is put in place, elsewhere nothing happens. */
  lemma {:induction false} ApplyAt(s: Snapshot, before: Snapshot, after: Snapshot, paths: seq<string>, p: string)
    ensures Lookup(Apply(s, Changes(before, after, paths)), p) ==
            if p in paths && Lookup(before, p) != Lookup(after, p) then Lookup(Plain(after), p) else Lookup(s, p)
    decreases |paths|
  {
    hide *;
    NoChanges(s, before, after);
    if paths != [] {
      var last, rest := paths[|paths| - 1], paths[..|paths| - 1];
      ApplyAt(s, before, after, rest, p);
      assert paths == rest + [last];
      ChangesSnoc(before, after, rest, last);
      var changes := Changes(before, after, rest);
      if Lookup(before, last) == Lookup(after, last) {
        assert changes + [] == changes;
      } else {
        ApplyOneAt(Apply(s, changes), before, after, last, p);
        ApplySnoc(s, changes, MakeChange(last, Lookup(before, last), Lookup(after, last)));
      }
    }
  }

  /** At the paths that differ the earlier state is put in place, elsewhere nothing happens. */
  lemma {:induction false} UndoAt(s: Snapshot, before: Snapshot, after: Snapshot, paths: seq<string>, p: string)
    ensures Lookup(Undo(s, Changes(before, after, paths)), p) ==
            if p in paths && Lookup(before, p) != Lookup(after, p) then Lookup(Bare(before), p) else Lookup(s, p)
    decreases |paths|
  {
    hide *;
    NoChanges(s, before, after);
    if paths != [] {
      var last, rest := paths[|paths| - 1], paths[..|paths| - 1];
      UndoAt(s, before, after, rest, p);
      assert paths == rest + [last];
      ChangesSnoc(before, after, rest, last);
      var changes := Changes(before, after, rest);
      if Lookup(before, last) == Lookup(after, last) {
        assert changes + [] == changes;
      } else {
        UndoOneAt(Undo(s, changes), before, after, last, p);
        UndoSnoc(s, changes, MakeChange(last, Lookup(before, last), Lookup(after, last)));
      }
    }
  }

  lemma SameAt(a: Snapshot, b: Snapshot)
    requires forall p :: Lookup(a, p) == Lookup(b, p)
    ensures a == b
  {
    forall p ensures p in a <==> p in b { assert Lookup(a, p) == Lookup(b, p); }
    forall p | p in a ensures a[p] == b[p] { assert Lookup(a, p) == Lookup(b, p); }
  }

  // ---------------------------------------------------------------- which paths change

  lemma {:induction false} ChangedPaths(before: Snapshot, after: Snapshot, paths: seq<string>)
    requires StrictlySorted(paths)
    ensures StrictlySorted(Paths(Changes(before, after, paths)))
    ensures forall p :: p in Paths(Changes(before, after, paths)) <==>
                          p in paths && Lookup(before, p) != Lookup(after, p)
    decreases |paths|
  {
    if paths != [] {
      var last, rest := paths[|paths| - 1], paths[..|paths| - 1];
      assert paths == rest + [last];
      ChangedPaths(before, after, rest);
      var changes := Changes(before, after, rest);
      hide Changes, Lookup, MakeChange;
      ChangesSnoc(before, after, rest, last);
      forall i | 0 <= i < |changes| ensures StringLess(changes[i].path, last) {
        assert Paths(changes)[i] in rest;
        var j :| 0 <= j < |rest| && rest[j] == changes[i].path;
        assert StringLess(paths[j], paths[|paths| - 1]);
      }
      PathsSnoc(changes, Changes(before, after, paths), last);
    }
  }

  lemma ChangesSnoc(before: Snapshot, after: Snapshot, rest: seq<string>, last: string)
    ensures Changes(before, after, rest + [last]) == Changes(before, after, rest)
            + (if Lookup(before, last) == Lookup(after, last) then []
               else [MakeChange(last, Lookup(before, last), Lookup(after, last))])
  {
    assert (rest + [last])[..|rest|] == rest;
  }

  lemma PathsSnoc(changes: seq<Change>, more: seq<Change>, last: string)
    requires || more == changes
             || (|more| == |changes| + 1 && more[..|changes|] == changes && more[|changes|].path == last)
    ensures Paths(more) == if more == changes then Paths(changes) else Paths(changes) + [last]
  {
    if more != changes {
      assert forall i :: 0 <= i < |changes| ==> more[i] == more[..|changes|][i];
    }
  }

  lemma {:induction false} SortedCount(xs: seq<string>, s: set<string>)
    requires StrictlySorted(xs) && forall x :: x in xs <==> x in s
    ensures |xs| == |s|
    decreases |xs|
  {
    if xs == [] {
      assert s == {};
    } else {
      var last, rest := xs[|xs| - 1], xs[..|xs| - 1];
      assert xs == rest + [last];
      forall x ensures x in rest <==> x in s - {last} {
        if x in rest {
          var j :| 0 <= j < |rest| && rest[j] == x;
          assert StringLess(xs[j], last);
          StringLessIrreflexive(last);
        }
      }
      SortedCount(rest, s - {last});
      assert last in s;
    }
  }

  // ------------------------------------------------------------------- the diff itself

  /** What a diff promises. */
  ghost predicate IsDiff(before: Snapshot, after: Snapshot, allowed: string -> bool, guarded: string -> bool, d: Diff) {
    && StrictlySorted(Paths(d.changes))
    && (forall p :: p in Paths(d.changes) <==> p in Differing(before, after))
    && d.changedFiles == |Differing(before, after)| == |d.changes|
    && (d.changes == [] <==> before == after)
    && (forall c :: c in d.changes ==> Labelled(before, after, c)) && d.changedBytes == Bytes(d.changes)
    && Apply(Plain(before), d.changes) == Plain(after)
    && Undo(Bare(after), d.changes) == Bare(before)
    && StrictlySorted(d.disallowed)
    && (forall p :: p in d.disallowed <==> p in Differing(before, after) && !allowed(p))
    && StrictlySorted(d.protected)
    && (forall p :: p in d.protected <==> p in Differing(before, after) && guarded(p))
    && StrictlySorted(d.unsafeLinks)
    && (forall p :: p in d.unsafeLinks <==> p in after && after[p].kind == Symlink && after[p].leavesWorkspace)
  }

  /** The labels of a change. */
  predicate Labelled(before: Snapshot, after: Snapshot, c: Change) {
    && (c.status == Added <==> c.path !in before) && (c.status == Removed <==> c.path !in after)
    && c.beforeSize == SizeOf(Lookup(before, c.path)) && c.afterSize == SizeOf(Lookup(after, c.path))
    && c.bytesChanged in {c.beforeSize, c.afterSize} && c.bytesChanged >= c.beforeSize && c.bytesChanged >= c.afterSize
  }

  lemma {:induction false} AllLabelled(before: Snapshot, after: Snapshot, paths: seq<string>)
    ensures forall c :: c in Changes(before, after, paths) ==> Labelled(before, after, c)
    decreases |paths|
  {
    hide Labelled;
    if paths != [] {
      var last := paths[|paths| - 1];
      AllLabelled(before, after, paths[..|paths| - 1]);
      if Lookup(before, last) != Lookup(after, last) {
        OneLabelled(before, after, last);
      }
    }
  }

  lemma OneLabelled(before: Snapshot, after: Snapshot, p: string)
    requires Lookup(before, p) != Lookup(after, p)
    ensures Labelled(before, after, MakeChange(p, Lookup(before, p), Lookup(after, p)))
  {
  }

  lemma ChangesAreDiff(before: Snapshot, after: Snapshot, paths: seq<string>)
    requires StrictlySorted(paths) && forall p :: p in paths <==> p in before.Keys + after.Keys
    ensures var changes := Changes(before, after, paths);
            && StrictlySorted(Paths(changes)) && (forall p :: p in Paths(changes) <==> p in Differing(before, after))
            && |changes| == |Differing(before, after)| && (changes == [] <==> before == after)
            && Apply(Plain(before), changes) == Plain(after) && Undo(Bare(after), changes) == Bare(before)
  {
    var changes := Changes(before, after, paths);
    ChangedPaths(before, after, paths);
    SortedCount(Paths(changes), Differing(before, after));
    forall p ensures Lookup(Apply(Plain(before), changes), p) == Lookup(Plain(after), p) {
      ApplyAt(Plain(before), before, after, paths, p);
      if Lookup(before, p) == Lookup(after, p) { SamePlain(before, after, p); }
    }
    SameAt(Apply(Plain(before), changes), Plain(after));
    forall p ensures Lookup(Undo(Bare(after), changes), p) == Lookup(Bare(before), p) {
      UndoAt(Bare(after), before, after, paths, p);
      if Lookup(before, p) == Lookup(after, p) { SamePlain(before, after, p); }
    }
    SameAt(Undo(Bare(after), changes), Bare(before));
    hide Changes, Apply, Undo, Plain, Bare, StrictlySorted;
    if changes == [] {
      forall p ensures Lookup(before, p) == Lookup(after, p) {
        assert p !in Paths(changes);
      }
      SameAt(before, after);
    } else {
      assert Paths(changes)[0] in Differing(before, after);
    }
  }

  /** The changes are exactly the differences, each once, sorted by path; forwards they turn the
      earlier snapshot into the later one, and backwards, but for the targets of links, the later
      one into the earlier. */
  method BuildWorkspaceDiff(before: Snapshot, after: Snapshot, allowed: string -> bool, guarded: string -> bool)
    returns (d: Diff)
    ensures IsDiff(before, after, allowed, guarded, d)
  {
    hide *;
    var changes: seq<Change>, bytes := [], 0;
    var paths := Sorted(before.Keys + after.Keys);
    assert paths[..0] == [];
    NoChanges(before, before, after);
    for i := 0 to |paths|
      invariant changes == Changes(before, after, paths[..i]) && bytes == Bytes(changes)
    {
      assert paths[..i + 1] == paths[..i] + [paths[i]];
      ChangesSnoc(before, after, paths[..i], paths[i]);
      var b, a := Lookup(before, paths[i]), Lookup(after, paths[i]);
      if b != a {
        BytesSnoc(changes, MakeChange(paths[i], b, a));
        bytes := bytes + MakeChange(paths[i], b, a).bytesChanged;
        changes := changes + [MakeChange(paths[i], b, a)];
      }
    }
    assert paths[..|paths|] == paths;
    ChangesAreDiff(before, after, paths);
    AllLabelled(before, after, paths);
    var changed := set p | p in Paths(changes);
    d := Diff(changes, |changes|, bytes,
              Sorted(set p | p in changed && !allowed(p)),
              Sorted(set p | p in changed && guarded(p)),
              Sorted(set p | p in after.Keys && after[p].kind == Symlink && after[p].leavesWorkspace));
    Finish(before, after, allowed, guarded, d);
  }

  lemma NoChanges(s: Snapshot, before: Snapshot, after: Snapshot)
    ensures Changes(before, after, []) == [] && Bytes([]) == 0 && Apply(s, []) == s && Undo(s, []) == s
  {
  }

  lemma BytesSnoc(changes: seq<Change>, c: Change)
    ensures Bytes(changes + [c]) == Bytes(changes) + c.bytesChanged
  {
    assert (changes + [c])[..|changes|] == changes;
  }

  lemma Finish(before: Snapshot, after: Snapshot, allowed: string -> bool, guarded: string -> bool, d: Diff)
    requires StrictlySorted(Paths(d.changes)) && (forall p :: p in Paths(d.changes) <==> p in Differing(before, after))
    requires d.changedFiles == |d.changes| == |Differing(before, after)| && (d.changes == [] <==> before == after)
    requires (forall c :: c in d.changes ==> Labelled(before, after, c)) && d.changedBytes == Bytes(d.changes)
    requires Apply(Plain(before), d.changes) == Plain(after) && Undo(Bare(after), d.changes) == Bare(before)
    requires StrictlySorted(d.disallowed) && StrictlySorted(d.protected) && StrictlySorted(d.unsafeLinks)
    requires forall p :: p in d.disallowed <==> p in Paths(d.changes) && !allowed(p)
    requires forall p :: p in d.protected <==> p in Paths(d.changes) && guarded(p)
    requires forall p :: p in d.unsafeLinks <==> p in after && after[p].kind == Symlink && after[p].leavesWorkspace
    ensures IsDiff(before, after, allowed, guarded, d)
  {
    hide StrictlySorted, Apply, Undo, Plain, Bare, Bytes, Paths, Differing, Labelled;
  }

  /** Applying a diff to the earlier snapshot itself gives the later one exactly when no path that
      differs ends as a link out of the workspace; that flag is not part of a change. */
  lemma RebuildsExactly(before: Snapshot, after: Snapshot, paths: seq<string>)
    requires forall p :: p in paths <==> p in before.Keys + after.Keys
    ensures Apply(before, Changes(before, after, paths)) == after <==>
            forall p :: p in Differing(before, after) && p in after ==> !after[p].leavesWorkspace
  {
    var built := Apply(before, Changes(before, after, paths));
    forall p ensures Lookup(built, p) ==
                     if p in Differing(before, after) then Lookup(Plain(after), p) else Lookup(after, p) {
      ApplyAt(before, before, after, paths, p);
      hide Apply, Changes;
    }
    hide Apply, Changes, Differing;
    if forall p :: p in Differing(before, after) && p in after ==> !after[p].leavesWorkspace {
      forall p ensures Lookup(built, p) == Lookup(after, p) {
        PlainAt(after, p);
      }
      SameAt(built, after);
    } else {
      var p :| p in Differing(before, after) && p in after && after[p].leavesWorkspace;
      PlainAt(after, p);
      assert Lookup(built, p) != Lookup(after, p);
    }
  }

  lemma PlainAt(s: Snapshot, p: string)
    ensures Lookup(Plain(s), p) == Lookup(s, p) <==> (p in s ==> !s[p].leavesWorkspace)
  {
  }

  /** Such a path exists: a link whose target stays the same but comes to lie outside. */
  lemma FlagNotCarried(path: string, s: FileState)
    requires s.kind == Symlink && !s.leavesWorkspace
    ensures var before, after := map[path := s], map[path := s.(leavesWorkspace := true)];
            Apply(before, Changes(before, after, [path])) != after
  {
    var before, after := map[path := s], map[path := s.(leavesWorkspace := true)];
    assert before[path] != after[path];
    assert path in Differing(before, after);
    RebuildsExactly(before, after, [path]);
  }
}

/** The search for a captured snapshot digest in the runtime metadata
    (src/skill_native/run_artifact_derived.py, `_find_snapshot_digest`). */
module Snapshot {
  import opened Wrappers
  import opened Json

  function Underscored(s: string): (r: string)
    ensures |r| == |s|
  {
    seq(|s|, i requires 0 <= i < |s| => if s[i] == '-' then '_' else s[i])
  }

  predicate Wanted(key: string) {
    Lower(Underscored(key)) in {"snapshot_digest", "snapshot_sha256", "snapshotdigest"}
  }

  /** The digest that one member of a mapping gives, if its key is wanted and its value is one. */
  function DigestOf(member: Member): Option<string> {
    if Wanted(member.key) && member.value.JString? && IsHex64(RemovePrefix(member.value.s, "sha256:"))
    then Some(RemovePrefix(member.value.s, "sha256:")) else None
  }

  // ---------------------------------------------------- the plain recursive definition

  /** All snapshot digests in the mappings nested in a value, at any depth. */
  function Digests(j: Json): set<string>
    decreases j, 1
  {
    match j
    case JObject(members) => DigestsOfMembers(members)
    case JList(items) => DigestsOfItems(items)
    case _ => {}
  }

  function DigestsOfMembers(members: Object): set<string>
    decreases members, 0
  {
    if members == [] then {}
    else
      (match DigestOf(members[0]) case None => {} case Some(d) => {d})
      + Digests(members[0].value) + DigestsOfMembers(members[1..])
  }

  function DigestsOfItems(items: seq<Json>): set<string>
    decreases items, 0
  {
    if items == [] then {} else Digests(items[0]) + DigestsOfItems(items[1..])
  }

  // ------------------------------------------------------------ which of them is found

  function Else(a: Option<string>, b: Option<string>): Option<string> { if a.Some? then a else b }

  /** The digest that the mapping itself gives, the first if there are several. */
  function FirstDirect(members: Object): Option<string> {
    if members == [] then None else Else(DigestOf(members[0]), FirstDirect(members[1..]))
  }

  /** The digest that is found: a mapping's own before those nested in it, and of those the ones in
      later values before the ones in earlier values. */
  function FirstIn(j: Json): Option<string>
    decreases j, 1
  {
    match j
    case JObject(members) => if FirstDirect(members).Some? then FirstDirect(members) else FirstInMembers(members)
    case JList(items) => FirstInItems(items)
    case _ => None
  }

  function FirstInMembers(members: Object): Option<string>
    decreases members, 0
  {
    if members == [] then None
    else Else(FirstInMembers(members[1..]), FirstIn(members[0].value))
  }

  function FirstInItems(items: seq<Json>): Option<string>
    decreases items, 0
  {
    if items == [] then None else Else(FirstInItems(items[1..]), FirstIn(items[0]))
  }

  ghost predicate Among(found: Option<string>, digests: set<string>) {
    (found.Some? <==> digests != {}) && (found.Some? ==> found.value in digests)
  }

  lemma {:induction false} DirectAmong(members: Object)
    ensures FirstDirect(members).Some? ==> FirstDirect(members).value in DigestsOfMembers(members)
    ensures FirstDirect(members) == None ==> forall i :: 0 <= i < |members| ==> DigestOf(members[i]) == None
  {
    hide DigestOf;
    if members != [] {
      DirectAmong(members[1..]);
      if FirstDirect(members) == None {
        assert forall i :: 1 <= i < |members| ==> members[i] == members[1..][i - 1];
      }
    }
  }

  /** A digest is found exactly when there is one, and it is one of those there are. */
  lemma {:induction false} FirstAmong(j: Json)
    ensures Among(FirstIn(j), Digests(j))
    decreases j, 1
  {
    match j
    case JObject(members) =>
      DirectAmong(members);
      if FirstDirect(members) == None {
        MembersAmong(members);
      }
    case JList(items) => ItemsAmong(items);
    case _ =>
  }

  lemma {:induction false} MembersAmong(members: Object)
    requires forall i :: 0 <= i < |members| ==> DigestOf(members[i]) == None
    ensures Among(FirstInMembers(members), DigestsOfMembers(members))
    decreases members, 0
  {
    hide DigestOf;
    if members != [] {
      FirstAmong(members[0].value);
      MembersAmong(members[1..]);
    }
  }

  lemma {:induction false} ItemsAmong(items: seq<Json>)
    ensures Among(FirstInItems(items), DigestsOfItems(items))
    decreases items, 0
  {
    if items != [] {
      FirstAmong(items[0]);
      ItemsAmong(items[1..]);
    }
  }

  // ------------------------------------------------------------------ the stack loop

  function Size(j: Json): (n: nat)
    ensures n > 0
    decreases j, 1
  {
    match j
    case JObject(members) => 1 + SizeOfMembers(members)
    case JList(items) => 1 + SizeOfItems(items)
    case _ => 1
  }

  function SizeOfMembers(members: Object): nat
    decreases members, 0
  {
    if members == [] then 0 else Size(members[0].value) + SizeOfMembers(members[1..])
  }

  function SizeOfItems(items: seq<Json>): nat
    decreases items, 0
  {
    if items == [] then 0 else Size(items[0]) + SizeOfItems(items[1..])
  }

  lemma {:induction false} ItemsConcat(a: seq<Json>, b: seq<Json>)
    ensures SizeOfItems(a + b) == SizeOfItems(a) + SizeOfItems(b)
    ensures FirstInItems(a + b) == Else(FirstInItems(b), FirstInItems(a))
    decreases |a|
  {
    if a == [] {
      assert a + b == b;
    } else {
      ItemsConcat(a[1..], b);
      assert (a + b)[1..] == a[1..] + b;
    }
  }

  lemma ItemsSnoc(a: seq<Json>, j: Json)
    ensures SizeOfItems(a + [j]) == SizeOfItems(a) + Size(j)
    ensures FirstInItems(a + [j]) == Else(FirstIn(j), FirstInItems(a))
  {
    ItemsConcat(a, [j]);
    assert [j][1..] == [];
  }

  lemma MembersFrom(members: Object, i: nat)
    requires i < |members|
    ensures FirstDirect(members[i..]) == Else(DigestOf(members[i]), FirstDirect(members[i + 1..]))
    ensures FirstInMembers(members[i..]) == Else(FirstInMembers(members[i + 1..]), FirstIn(members[i].value))
    ensures SizeOfMembers(members[i..]) == Size(members[i].value) + SizeOfMembers(members[i + 1..])
  {
    hide DigestOf;
    assert members[i..][1..] == members[i + 1..];
  }

  lemma NoMembers(members: Object)
    ensures FirstDirect(members[|members|..]) == None == FirstInMembers(members[|members|..])
    ensures SizeOfMembers(members[|members|..]) == 0
  {
  }

  /** The body of the loop for a mapping: its own digest, or its values on the stack. */
  method SearchMapping(members: Object, below: seq<Json>) returns (found: Option<string>, stack: seq<Json>)
    ensures found == FirstDirect(members)
    ensures found == None ==> FirstInItems(stack) == Else(FirstInMembers(members), FirstInItems(below))
    ensures found == None ==> SizeOfItems(stack) == SizeOfItems(below) + SizeOfMembers(members)
  {
    hide *;
    stack := below;
    assert members[0..] == members;
    ElseLaws(FirstInMembers(members), FirstInItems(below), None);
    for i := 0 to |members|
      invariant FirstDirect(members[i..]) == FirstDirect(members)
      invariant Else(FirstInMembers(members[i..]), FirstInItems(stack)) ==
                Else(FirstInMembers(members), FirstInItems(below))
      invariant SizeOfItems(stack) + SizeOfMembers(members[i..]) == SizeOfItems(below) + SizeOfMembers(members)
    {
      MembersFrom(members, i);
      var digest := DigestOf(members[i]);
      ElseLaws(digest, FirstDirect(members[i + 1..]), None);
      if digest.Some? {
        return digest, stack;
      }
      var child := members[i].value;
      ItemsSnoc(stack, child);
      ElseLaws(FirstInMembers(members[i + 1..]), FirstIn(child), FirstInItems(stack));
      stack := stack + [child];
    }
    NoMembers(members);
    ElseLaws(None, FirstInItems(stack), None);
    found := None;
  }

  lemma ElseLaws(a: Option<string>, b: Option<string>, c: Option<string>)
    ensures Else(a, Else(b, c)) == Else(Else(a, b), c)
    ensures (a.Some? ==> Else(a, b) == a) && (a == None ==> Else(a, b) == b)
  {
  }

  lemma InsideSize(j: Json)
    ensures FirstIn(j) == (match j
                           case JObject(members) => Else(FirstDirect(members), FirstInMembers(members))
                           case JList(items) => FirstInItems(items)
                           case _ => None)
    ensures Size(j) == (match j
                        case JObject(members) => 1 + SizeOfMembers(members)
                        case JList(items) => 1 + SizeOfItems(items)
                        case _ => 1)
  {
  }

  /** The loop ends, and what it returns is what the recursion finds; so it returns a digest exactly
      when the metadata holds one anywhere, and then one of those. */
  method FindSnapshotDigest(metadata: Json) returns (found: Option<string>)
    ensures found == FirstIn(metadata)
    ensures found.Some? <==> Digests(metadata) != {}
    ensures found.Some? ==> found.value in Digests(metadata)
  {
    FirstAmong(metadata);
    hide FirstIn, FirstInItems, FirstInMembers, FirstDirect, Digests, Size, SizeOfItems, SizeOfMembers, Else;
    var stack := [metadata];
    NoItems();
    ItemsSnoc([], metadata);
    ElseLaws(FirstIn(metadata), None, None);
    assert [] + [metadata] == [metadata];
    while stack != []
      invariant FirstInItems(stack) == FirstIn(metadata)
      decreases SizeOfItems(stack)
    {
      var value, below := stack[|stack| - 1], stack[..|stack| - 1];
      assert stack == below + [value];
      ItemsSnoc(below, value);
      InsideSize(value);
      stack := below;
      match value {
        case JObject(members) =>
          var digest;
          digest, stack := SearchMapping(members, below);
          ElseLaws(FirstDirect(members), FirstInMembers(members), FirstInItems(below));
          ElseLaws(FirstDirect(members), Else(FirstInMembers(members), FirstInItems(below)), None);
          if digest.Some? {
            return digest;
          }
        case JList(items) =>
          ItemsConcat(below, items);
          stack := below + items;
        case _ =>
          ElseLaws(None, FirstInItems(below), None);
      }
    }
    NoItems();
    return None;
  }

  lemma NoItems()
    ensures FirstInItems([]) == None && SizeOfItems([]) == 0
  {
  }
}

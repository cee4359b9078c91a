/** JSON values as the run-artifact code handles them: Python's dicts keep their order, and the
    checks on strings are the ones in src/skill_native/run_artifact_common.py. */
module Json {
  import opened Wrappers
  import opened Strings

  datatype Json =
    | JNull
    | JBool(b: bool)
    | JNumber(n: real)
    | JString(s: string)
    | JList(items: seq<Json>)
    | JObject(members: Object)

  datatype Member = Member(key: string, value: Json)

  type Object = seq<Member>

  /** `key in mapping`. */
  predicate Has(o: Object, key: string) {
    exists i :: 0 <= i < |o| && o[i].key == key
  }

  /** `mapping.get(key, default)`. */
  function GetOr(o: Object, key: string, default: Json): Json {
    if o == [] then default else if o[0].key == key then o[0].value else GetOr(o[1..], key, default)
  }

  /** `mapping.get(key)`; Python's None is JSON's null. */
  function Get(o: Object, key: string): Json { GetOr(o, key, JNull) }

  lemma {:induction false} GetInside(o: Object, key: string)
    requires Has(o, key)
    ensures exists i :: 0 <= i < |o| && Get(o, key) == o[i].value
  {
    if o[0].key != key {
      assert Has(o[1..], key) by {
        var i :| 0 <= i < |o| && o[i].key == key;
        assert o[1..][i - 1].key == key;
      }
      GetInside(o[1..], key);
      var i :| 0 <= i < |o| - 1 && Get(o[1..], key) == o[1..][i].value;
      assert o[i + 1] == o[1..][i];
    }
  }

  /** The same value, up to the order of members: what sorting the keys makes equal. */
  ghost predicate Same(a: Json, b: Json)
    decreases a
  {
    match a
    case JObject(m) =>
      && b.JObject? && (forall k :: Has(m, k) <==> Has(b.members, k))
      && (forall k | Has(m, k) :: Same((GetInside(m, k); Get(m, k)), Get(b.members, k)))
    case JList(xs) => b.JList? && |b.items| == |xs| && forall i :: 0 <= i < |xs| ==> Same(xs[i], b.items[i])
    case _ => a == b
  }

  lemma {:induction false} SameItself(a: Json)
    ensures Same(a, a)
    decreases a
  {
    match a
    case JObject(m) =>
      forall k | Has(m, k) ensures Same(Get(m, k), Get(m, k)) {
        GetInside(m, k);
        var i :| 0 <= i < |m| && Get(m, k) == m[i].value;
        SameItself(m[i].value);
      }
    case JList(xs) =>
      forall i | 0 <= i < |xs| ensures Same(xs[i], xs[i]) {
        SameItself(xs[i]);
      }
    case _ =>
  }

  lemma {:induction false} GetAbsent(o: Object, key: string)
    requires !Has(o, key)
    ensures Get(o, key) == JNull
  {
    if o != [] {
      assert o[0].key != key;
      assert forall i :: 0 <= i < |o| - 1 ==> o[1..][i] == o[i + 1];
      GetAbsent(o[1..], key);
    }
  }

  lemma {:induction false} SamePairwise(m: Object, n: Object, key: string)
    requires |m| == |n| && forall i :: 0 <= i < |m| ==> m[i].key == n[i].key && Same(m[i].value, n[i].value)
    ensures Same(Get(m, key), Get(n, key))
  {
    if m != [] && m[0].key != key {
      assert forall i :: 0 <= i < |m| - 1 ==> m[1..][i] == m[i + 1] && n[1..][i] == n[i + 1];
      SamePairwise(m[1..], n[1..], key);
    }
  }

  /** Mappings with the same keys and values in the same places are the same. */
  lemma SameObjects(m: Object, n: Object)
    requires |m| == |n| && forall i :: 0 <= i < |m| ==> m[i].key == n[i].key && Same(m[i].value, n[i].value)
    ensures Same(JObject(m), JObject(n))
  {
    forall k ensures Has(m, k) <==> Has(n, k) {
      if Has(m, k) {
        var i :| 0 <= i < |m| && m[i].key == k;
        assert n[i].key == k;
      }
      if Has(n, k) {
        var i :| 0 <= i < |n| && n[i].key == k;
        assert m[i].key == k;
      }
    }
    forall k ensures Same(Get(m, k), Get(n, k)) {
      SamePairwise(m, n, k);
    }
  }

  /** What is found under a key is the same. */
  lemma SameGet(m: Object, n: Object, key: string)
    requires Same(JObject(m), JObject(n))
    ensures Same(Get(m, key), Get(n, key))
  {
    if !Has(m, key) {
      GetAbsent(m, key);
      GetAbsent(n, key);
    }
  }

  /** The mapping under a key, or an empty one where there is none. */
  function Sub(o: Object, key: string): Object {
    if Get(o, key).JObject? then Get(o, key).members else []
  }

  /** `_require_str`: a non-empty string. */
  predicate HasText(o: Object, key: string) {
    Get(o, key).JString? && Get(o, key).s != ""
  }

  function Text(o: Object, key: string): string {
    if Get(o, key).JString? then Get(o, key).s else ""
  }

  predicate IsHexText(s: string) {
    forall i :: 0 <= i < |s| ==> '0' <= s[i] <= '9' || 'a' <= s[i] <= 'f'
  }

  predicate IsHex64(s: string) { |s| == 64 && IsHexText(s) }

  predicate IsHex40(s: string) { |s| == 40 && IsHexText(s) }

  type HexDigest = s: string | IsHex64(s) witness seq(64, _ => '0')

  function LeftStrip(s: string): string {
    if s != "" && IsSpace(s[0]) then LeftStrip(s[1..]) else s
  }

  function RightStrip(s: string): string {
    if s != "" && IsSpace(s[|s| - 1]) then RightStrip(s[..|s| - 1]) else s
  }

  /** The Kelvin sign is the one character beyond ASCII whose lower case is an ASCII letter. */
  function LowerChar(c: char): char {
    if 'A' <= c <= 'Z' then c - 'A' + 'a' else if c == '\U{212A}' then 'k' else c
  }

  /** `str.lower`, as far as it gives ASCII letters; other characters are left alone, which no
      comparison with an ASCII text can tell. */
  function Lower(s: string): (r: string)
    ensures |r| == |s|
  {
    seq(|s|, i requires 0 <= i < |s| => LowerChar(s[i]))
  }

  /** `value.strip().lower()`. */
  function Normal(s: string): string { Lower(RightStrip(LeftStrip(s))) }

  /** `value.removeprefix(prefix)`. */
  function RemovePrefix(s: string, prefix: string): string {
    if prefix <= s then s[|prefix|..] else s
  }

  predicate IsMutableRef(s: string) {
    s in {"main", "master", "head", "latest", "*", "unknown", "none", "pin_me"}
  }

  predicate IsSha256Reference(s: string) {
    var n := Normal(s);
    IsHex64(n) || ("sha256:" <= n && IsHex64(n[7..]))
  }

  predicate IsImmutableReference(s: string) {
    var n := Normal(s);
    && n != "" && !IsMutableRef(n)
    && (IsHex40(n) || IsHex64(n) || ("sha256:" <= n && IsHex64(n[7..])) || ("git:" <= n && IsHex40(n[4..])))
  }

  /** What is taken from outside: `canonical_digest` of a value, Python's `str` of a value that
      is not a string, and the SHA-256 digest and UTF-8 length of a text. */
  datatype Env = Env(
    digest: Json -> HexDigest,
    repr: Json -> string,
    textDigest: string -> HexDigest,
    utf8Length: string -> nat)

  /** `str(value)`. */
  function Str(env: Env, j: Json): string {
    if j.JString? then j.s else env.repr(j)
  }

  /** What a `for` loop over a value visits; nothing when Python refuses to iterate over it. */
  function Iterate(j: Json): Option<seq<Json>> {
    match j
    case JList(items) => Some(items)
    case JString(s) => Some(seq(|s|, i requires 0 <= i < |s| => JString([s[i]])))
    case JObject(members) => Some(seq(|members|, i requires 0 <= i < |members| => JString(members[i].key)))
    case _ => None
  }

  function StrAll(env: Env, items: seq<Json>): (r: seq<string>)
    ensures |r| == |items| && forall i :: 0 <= i < |items| ==> r[i] == Str(env, items[i])
  {
    seq(|items|, i requires 0 <= i < |items| => Str(env, items[i]))
  }

  /** `_captured_evidence`: the attested channels, none unless they are given as a list. */
  function Captured(env: Env, evidence: Object): set<string> {
    match Get(Sub(Sub(evidence, "runtime_metadata"), "evidence_contract"), "captured")
    case JList(items) => set s | s in StrAll(env, items)
    case _ => {}
  }
}

/** Canonical JSON text of records with a fixed set of fields: keys in sorted order, no
    white space, and values that are digests, optional digests, non-negative integers,
    names or lists of digests. A layout lists the labels, each label being all fixed text
    between two values. Writing and reading are inverse to each other. */
module CanonicalJson {
  import opened Wrappers
  import opened Decimals
  import opened Hashing

  datatype Kind = DigestKind | MaybeDigestKind | NumberKind | NameKind | DigestListKind

  datatype Value =
    | ADigest(digest: Digest)
    | MaybeDigest(maybe: Option<Digest>)
    | Number(number: nat)
    | Name(name: string)
    | DigestList(digests: seq<Digest>)

  predicate NoLineBreak(s: string) {
    forall i :: 0 <= i < |s| ==> s[i] != '\n' && s[i] != '\r'
  }

  /** Text that can follow a number without changing how it is read. */
  predicate EndsNumber(s: string) {
    |s| > 0 && !IsDigit(s[0])
  }

  /** Fixed text between two values: it cannot extend a number and stays on its line. */
  type Lead = s: string | EndsNumber(s) && NoLineBreak(s) witness ","

  datatype Field = Field(lead: Lead, kind: Kind)

  datatype Layout = Layout(fields: seq<Field>, closing: Lead)

  /** The pattern `^[a-z0-9][a-z0-9._-]*$`. */
  predicate IsNameChar(c: char) {
    'a' <= c <= 'z' || '0' <= c <= '9' || c == '.' || c == '_' || c == '-'
  }

  predicate IsName(s: string) {
    && |s| > 0
    && s[0] != '.' && s[0] != '_' && s[0] != '-'
    && forall i :: 0 <= i < |s| ==> IsNameChar(s[i])
  }

  predicate HasKind(v: Value, kind: Kind) {
    match kind
    case DigestKind => v.ADigest?
    case MaybeDigestKind => v.MaybeDigest?
    case NumberKind => v.Number?
    case NameKind => v.Name? && IsName(v.name)
    case DigestListKind => v.DigestList?
  }

  predicate Fits(values: seq<Value>, layout: Layout) {
    && |values| == |layout.fields|
    && forall i :: 0 <= i < |values| ==> HasKind(values[i], layout.fields[i].kind)
  }

  // ---------------------------------------------------------------- single values

  function WriteDigest(d: Digest): (s: string)
    ensures |s| == 66
  {
    "\"" + Hex(d) + "\""
  }

  function ReadDigest(s: string): Option<(Digest, string)> {
    if |s| >= 66 && s[0] == '\"' && s[65] == '\"' && forall i :: 0 <= i < 64 ==> IsHexChar(s[1..65][i])
    then Some((Unhex(s[1..65]), s[66..])) else None
  }

  lemma ReadDigestOfWriteDigest(d: Digest, rest: string)
    ensures ReadDigest(WriteDigest(d) + rest) == Some((d, rest))
  {
    var s := WriteDigest(d) + rest;
    assert s[1..65] == Hex(d);
    assert s[66..] == rest;
    UnhexOfHex(d);
  }

  lemma WriteDigestOfReadDigest(s: string)
    requires ReadDigest(s).Some?
    ensures s == WriteDigest(ReadDigest(s).value.0) + ReadDigest(s).value.1
  {
    HexOfUnhex(s[1..65]);
  }

  function WriteMaybe(maybe: Option<Digest>): string {
    match maybe
    case None => "null"
    case Some(d) => WriteDigest(d)
  }

  function ReadMaybe(s: string): Option<(Option<Digest>, string)> {
    if "null" <= s then Some((None, s[4..]))
    else match ReadDigest(s)
      case None => None
      case Some((d, rest)) => Some((Some(d), rest))
  }

  lemma ReadMaybeOfWriteMaybe(maybe: Option<Digest>, rest: string)
    ensures ReadMaybe(WriteMaybe(maybe) + rest) == Some((maybe, rest))
  {
    var s := WriteMaybe(maybe) + rest;
    match maybe {
      case None => assert s[4..] == rest;
      case Some(d) =>
        ReadDigestOfWriteDigest(d, rest);
        assert s[0] == '\"';
    }
  }

  lemma WriteMaybeOfReadMaybe(s: string)
    requires ReadMaybe(s).Some?
    ensures s == WriteMaybe(ReadMaybe(s).value.0) + ReadMaybe(s).value.1
  {
    if !("null" <= s) {
      WriteDigestOfReadDigest(s);
    }
  }

  /** The items of a JSON list after its opening bracket, up to the closing bracket. */
  function WriteItems(ds: seq<Digest>): string {
    if ds == [] then "]"
    else if |ds| == 1 then WriteDigest(ds[0]) + "]"
    else WriteDigest(ds[0]) + "," + WriteItems(ds[1..])
  }

  function ReadItems(s: string, first: bool): Option<(seq<Digest>, string)>
    decreases |s|
  {
    if s != "" && s[0] == ']' then
      if first then Some(([], s[1..])) else None
    else match ReadDigest(s)
      case None => None
      case Some((d, rest)) =>
        if rest != "" && rest[0] == ']' then Some(([d], rest[1..]))
        else if rest != "" && rest[0] == ',' then
          match ReadItems(rest[1..], false)
          case None => None
          case Some((ds, tail)) => Some(([d] + ds, tail))
        else None
  }

  lemma ReadLastItem(d: Digest, rest: string, first: bool)
    ensures ReadItems(WriteDigest(d) + "]" + rest, first) == Some(([d], rest))
  {
    var s := WriteDigest(d) + "]" + rest;
    var tail := "]" + rest;
    ReadDigestOfWriteDigest(d, tail);
    assert s == WriteDigest(d) + tail && s[0] == '\"';
    assert tail[1..] == rest;
  }

  lemma ReadNextItem(d: Digest, more: string, first: bool)
    requires ReadItems(more, false).Some?
    ensures ReadItems(WriteDigest(d) + "," + more, first)
         == Some(([d] + ReadItems(more, false).value.0, ReadItems(more, false).value.1))
  {
    var s := WriteDigest(d) + "," + more;
    var tail := "," + more;
    ReadDigestOfWriteDigest(d, tail);
    assert s == WriteDigest(d) + tail && s[0] == '\"';
    assert tail[1..] == more;
  }

  lemma {:induction false} ReadItemsOfWriteItems(ds: seq<Digest>, rest: string, first: bool)
    requires first || ds != []
    ensures ReadItems(WriteItems(ds) + rest, first) == Some((ds, rest))
  {
    hide *;
    if ds == [] {
      ReadNoItems(rest);
    } else if |ds| == 1 {
      assert ds == [ds[0]];
      WriteItemsCons(ds[0], []);
      ReadLastItem(ds[0], rest, first);
    } else {
      var more := WriteItems(ds[1..]) + rest;
      assert [ds[0]] + ds[1..] == ds;
      WriteItemsCons(ds[0], ds[1..]);
      assert WriteItems(ds) + rest == WriteDigest(ds[0]) + "," + more;
      ReadItemsOfWriteItems(ds[1..], rest, false);
      ReadNextItem(ds[0], more, first);
    }
  }

  lemma ReadNoItems(rest: string)
    ensures ReadItems(WriteItems([]) + rest, true) == Some(([], rest))
  {
    assert (WriteItems([]) + rest)[1..] == rest;
  }

  /** How a successful read of items went: nothing, a last item, or an item and a comma. */
  lemma ReadItemsCases(s: string, first: bool)
    requires ReadItems(s, first).Some?
    ensures s != ""
    ensures s[0] == ']' ==> first && ReadItems(s, first).value == ([], s[1..])
    ensures s[0] != ']' ==> ReadDigest(s).Some? && ReadDigest(s).value.1 != ""
    ensures s[0] != ']' ==>
              var (d, rest) := ReadDigest(s).value;
              if rest[0] == ']' then ReadItems(s, first).value == ([d], rest[1..])
              else
                && rest[0] == ',' && |rest| < |s| && ReadItems(rest[1..], false).Some?
                && ReadItems(s, first).value
                == ([d] + ReadItems(rest[1..], false).value.0, ReadItems(rest[1..], false).value.1)
  {
    ShortDigest(s);
    hide ReadDigest;
  }

  lemma ShortDigest(s: string)
    ensures ReadDigest(s).Some? ==> s != "" && |ReadDigest(s).value.1| < |s|
  {
  }

  lemma WriteNoItems()
    ensures WriteItems([]) == "]"
  {
  }

  lemma WriteItemsCons(d: Digest, ds: seq<Digest>)
    ensures WriteItems([d]) == WriteDigest(d) + "]"
    ensures ds != [] ==> WriteItems([d] + ds) == WriteDigest(d) + "," + WriteItems(ds)
  {
    assert ([d] + ds)[1..] == ds;
  }

  lemma {:induction false} WriteItemsOfReadItems(s: string, first: bool)
    requires ReadItems(s, first).Some?
    ensures s == WriteItems(ReadItems(s, first).value.0) + ReadItems(s, first).value.1
    ensures first || ReadItems(s, first).value.0 != []
    decreases |s|
  {
    hide *;
    ReadItemsCases(s, first);
    if s[0] == ']' {
      WriteNoItems();
      assert s == "]" + s[1..];
    } else {
      WriteDigestOfReadDigest(s);
      var (d, rest) := ReadDigest(s).value;
      assert rest == [rest[0]] + rest[1..];
      if rest[0] == ']' {
        WriteItemsCons(d, []);
      } else {
        WriteItemsOfReadItems(rest[1..], false);
        WriteItemsCons(d, ReadItems(rest[1..], false).value.0);
      }
    }
  }

  function NameRun(s: string): (k: nat)
    ensures k <= |s| && forall i :: 0 <= i < k ==> IsNameChar(s[i])
    ensures k < |s| ==> !IsNameChar(s[k])
  {
    if s == "" || !IsNameChar(s[0]) then 0
    else
      var k := 1 + NameRun(s[1..]);
      assert forall i :: 0 < i < k ==> s[i] == s[1..][i - 1];
      k
  }

  function ReadName(s: string): Option<(string, string)> {
    if s == "" || s[0] != '\"' then None
    else
      var k := NameRun(s[1..]);
      if IsName(s[1..][..k]) && k < |s[1..]| && s[1..][k] == '\"'
      then Some((s[1..][..k], s[1..][k + 1..])) else None
  }

  lemma ReadNameOfWriteName(name: string, rest: string)
    requires IsName(name)
    ensures ReadName("\"" + name + "\"" + rest) == Some((name, rest))
  {
    var s := "\"" + name + "\"" + rest;
    assert s[1..] == name + "\"" + rest;
    assert forall i :: 0 <= i < |name| ==> s[1..][i] == name[i];
    assert s[1..][|name|] == '\"';
    assert NameRun(s[1..]) == |name|;
    assert s[1..][..|name|] == name && s[1..][|name| + 1..] == rest;
  }

  function WriteValue(v: Value): string {
    match v
    case ADigest(d) => WriteDigest(d)
    case MaybeDigest(maybe) => WriteMaybe(maybe)
    case Number(n) => Decimal(n)
    case Name(s) => "\"" + s + "\""
    case DigestList(ds) => "[" + WriteItems(ds)
  }

  function ReadValue(kind: Kind, s: string): Option<(Value, string)> {
    match kind
    case DigestKind =>
      (match ReadDigest(s) case None => None case Some((d, rest)) => Some((ADigest(d), rest)))
    case MaybeDigestKind =>
      (match ReadMaybe(s) case None => None case Some((maybe, rest)) => Some((MaybeDigest(maybe), rest)))
    case NumberKind =>
      (match ReadDecimal(s) case None => None case Some((n, rest)) => Some((Number(n), rest)))
    case NameKind =>
      (match ReadName(s) case None => None case Some((name, rest)) => Some((Name(name), rest)))
    case DigestListKind =>
      if s != "" && s[0] == '[' then
        (match ReadItems(s[1..], true) case None => None case Some((ds, rest)) => Some((DigestList(ds), rest)))
      else None
  }

  lemma ReadListOfWriteList(ds: seq<Digest>, rest: string)
    ensures ReadValue(DigestListKind, WriteValue(DigestList(ds)) + rest) == Some((DigestList(ds), rest))
  {
    var s := WriteValue(DigestList(ds)) + rest;
    ReadItemsOfWriteItems(ds, rest, true);
    assert s[1..] == WriteItems(ds) + rest;
  }

  lemma ReadValueOfWriteValue(kind: Kind, v: Value, rest: string)
    requires HasKind(v, kind) && EndsNumber(rest)
    ensures ReadValue(kind, WriteValue(v) + rest) == Some((v, rest))
  {
    match kind {
      case DigestKind => ReadDigestOfWriteDigest(v.digest, rest);
      case MaybeDigestKind => ReadMaybeOfWriteMaybe(v.maybe, rest);
      case NumberKind => ReadDecimalOfDecimal(v.number, rest);
      case NameKind => ReadNameOfWriteName(v.name, rest);
      case DigestListKind => ReadListOfWriteList(v.digests, rest);
    }
  }

  lemma WriteNameOfReadName(s: string)
    requires ReadName(s).Some?
    ensures s == "\"" + ReadName(s).value.0 + "\"" + ReadName(s).value.1 && IsName(ReadName(s).value.0)
  {
    var k := NameRun(s[1..]);
    assert s == "\"" + s[1..][..k] + "\"" + s[1..][k + 1..];
  }

  lemma WriteValueOfReadValue(kind: Kind, s: string)
    requires ReadValue(kind, s).Some?
    ensures s == WriteValue(ReadValue(kind, s).value.0) + ReadValue(kind, s).value.1
    ensures HasKind(ReadValue(kind, s).value.0, kind)
  {
    hide ReadDigest, ReadMaybe, ReadDecimal, ReadName, ReadItems, WriteDigest, WriteItems, IsName;
    match kind {
      case DigestKind => WriteDigestOfReadDigest(s);
      case MaybeDigestKind => WriteMaybeOfReadMaybe(s);
      case NumberKind => DecimalOfReadDecimal(s);
      case NameKind => WriteNameOfReadName(s);
      case DigestListKind =>
        WriteItemsOfReadItems(s[1..], true);
        assert s == "[" + s[1..];
    }
  }

  // --------------------------------------------------------------- whole records

  function Tail(layout: Layout): Layout
    requires layout.fields != []
  {
    layout.(fields := layout.fields[1..])
  }

  function Write(layout: Layout, values: seq<Value>): string
    requires |values| == |layout.fields|
    decreases |values|
  {
    if values == [] then layout.closing
    else layout.fields[0].lead + WriteValue(values[0]) + Write(Tail(layout), values[1..])
  }

  function Read(layout: Layout, s: string): Option<seq<Value>>
    decreases |layout.fields|
  {
    if layout.fields == [] then if s == layout.closing then Some([]) else None
    else
      var lead := layout.fields[0].lead;
      if !(lead <= s) then None
      else match ReadValue(layout.fields[0].kind, s[|lead|..])
        case None => None
        case Some((v, rest)) =>
          match Read(Tail(layout), rest)
          case None => None
          case Some(vs) => Some([v] + vs)
  }

  lemma WriteEndsNumber(layout: Layout, values: seq<Value>)
    requires |values| == |layout.fields|
    ensures EndsNumber(Write(layout, values))
  {
  }

  lemma DropPrefix(prefix: string, s: string)
    ensures prefix <= prefix + s && (prefix + s)[|prefix|..] == s
  {
  }

  lemma ReadField(layout: Layout, v: Value, rest: string)
    requires layout.fields != [] && HasKind(v, layout.fields[0].kind) && EndsNumber(rest)
    requires Read(Tail(layout), rest).Some?
    ensures Read(layout, layout.fields[0].lead + WriteValue(v) + rest)
         == Some([v] + Read(Tail(layout), rest).value)
  {
    var tail := WriteValue(v) + rest;
    DropPrefix(layout.fields[0].lead, tail);
    assert layout.fields[0].lead + WriteValue(v) + rest == layout.fields[0].lead + tail;
    ReadValueOfWriteValue(layout.fields[0].kind, v, rest);
  }

  lemma TailFits(layout: Layout, values: seq<Value>)
    requires values != [] && Fits(values, layout)
    ensures Fits(values[1..], Tail(layout))
  {
  }

  lemma {:induction false} ReadOfWrite(layout: Layout, values: seq<Value>)
    requires Fits(values, layout)
    ensures Read(layout, Write(layout, values)) == Some(values)
    decreases |values|
  {
    if values != [] {
      TailFits(layout, values);
      var rest := Write(Tail(layout), values[1..]);
      WriteEndsNumber(Tail(layout), values[1..]);
      ReadOfWrite(Tail(layout), values[1..]);
      ReadField(layout, values[0], rest);
      assert [values[0]] + values[1..] == values;
    }
  }

  lemma {:induction false} WriteOfRead(layout: Layout, s: string)
    requires Read(layout, s).Some?
    ensures Fits(Read(layout, s).value, layout)
    ensures Write(layout, Read(layout, s).value) == s
    decreases |layout.fields|
  {
    hide ReadValue, WriteValue, HasKind;
    if layout.fields != [] {
      var lead := layout.fields[0].lead;
      WriteValueOfReadValue(layout.fields[0].kind, s[|lead|..]);
      var (v, rest) := ReadValue(layout.fields[0].kind, s[|lead|..]).value;
      WriteOfRead(Tail(layout), rest);
      var vs := Read(Tail(layout), rest).value;
      assert ([v] + vs)[1..] == vs;
      assert s == lead + s[|lead|..];
    }
  }

  /** Records with the same text are the same record. */
  lemma WriteInjective(layout: Layout, a: seq<Value>, b: seq<Value>)
    requires Fits(a, layout) && Fits(b, layout)
    requires Write(layout, a) == Write(layout, b)
    ensures a == b
  {
    ReadOfWrite(layout, a);
    ReadOfWrite(layout, b);
  }

  // ------------------------------------------------------------------ line breaks

  lemma {:induction false} WriteItemsNoLineBreak(ds: seq<Digest>)
    ensures NoLineBreak(WriteItems(ds))
  {
    if |ds| > 1 {
      WriteItemsNoLineBreak(ds[1..]);
    }
  }

  lemma WriteValueNoLineBreak(v: Value, kind: Kind)
    requires HasKind(v, kind)
    ensures NoLineBreak(WriteValue(v))
  {
    if v.DigestList? {
      WriteItemsNoLineBreak(v.digests);
    }
  }

  /** A record is written on one line. */
  lemma {:induction false} WriteNoLineBreak(layout: Layout, values: seq<Value>)
    requires Fits(values, layout)
    ensures NoLineBreak(Write(layout, values))
    decreases |values|
  {
    if values != [] {
      WriteValueNoLineBreak(values[0], layout.fields[0].kind);
      WriteNoLineBreak(Tail(layout), values[1..]);
    }
  }
}

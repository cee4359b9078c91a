/** The log as text: one canonical line per entry
    (src/skill_native/transparency_log.py, `_read_entries`). */
module LogText {
  import opened Wrappers
  import opened Strings
  import opened Hashing
  import opened CanonicalJson
  import opened LogEntries

  datatype LogError =
    | TruncatedLine | EmptyLine | InvalidEntry
    | ForeignEntry | SequenceBroken | ChainBroken | DuplicateEnvelope
    | InvalidLogId | CheckpointMissing | CheckpointInvalid | CheckpointMismatch
    | NotAttested
    | ForeignReceipt | InvalidReceipt | ReceiptExceedsLog | ReceiptCheckpointMismatch
    | ReceiptEntryMismatch | ReceiptPathMismatch

  /** Universal newlines: a text-mode read turns `\r\n` and a lone `\r` into `\n`. */
  function Translate(raw: string): string {
    if raw == "" then ""
    else if raw[0] != '\r' then [raw[0]] + Translate(raw[1..])
    else if |raw| > 1 && raw[1] == '\n' then "\n" + Translate(raw[2..])
    else "\n" + Translate(raw[1..])
  }

  /** Position just after the first line break, or the length of the text if there is none. */
  function LineEnd(t: string): (k: nat)
    ensures k <= |t| && (t != "" ==> k > 0)
    ensures forall i :: 0 <= i < k - 1 ==> t[i] != '\n'
    ensures k < |t| ==> k > 0 && t[k - 1] == '\n'
  {
    if t == "" then 0
    else if t[0] == '\n' then 1
    else
      var k := 1 + LineEnd(t[1..]);
      assert forall i :: 0 < i < k ==> t[i] == t[1..][i - 1];
      k
  }

  predicate IsBlank(line: string) {
    forall i :: 0 <= i < |line| ==> IsSpace(line[i])
  }

  function CheckLine(H: Hash, line: string): Result<Entry, LogError>
    requires line != ""
  {
    if line[|line| - 1] != '\n' then Failure(TruncatedLine)
    else if IsBlank(line) then Failure(EmptyLine)
    else match ParseLine(H, line)
      case None => Failure(InvalidEntry)
      case Some(e) => Success(e)
  }

  /** What reading a translated text yields: its entries in order, or the fault of the first bad line. */
  function ParseLog(H: Hash, t: string): Result<seq<Entry>, LogError>
    decreases |t|
  {
    if t == "" then Success([])
    else match CheckLine(H, t[..LineEnd(t)])
      case Failure(error) => Failure(error)
      case Success(e) =>
        match ParseLog(H, t[LineEnd(t)..])
        case Failure(error) => Failure(error)
        case Success(es) => Success([e] + es)
  }

  function CanonicalText(es: seq<Entry>): string {
    if es == [] then "" else LineText(es[0]) + CanonicalText(es[1..])
  }

  predicate AllValid(H: Hash, es: seq<Entry>) {
    forall i :: 0 <= i < |es| ==> ValidEntry(H, es[i])
  }

  /** The first line of a text that is read, and what the rest is read as. */
  lemma FirstLineRead(H: Hash, t: string)
    requires t != "" && ParseLog(H, t).Success?
    ensures ParseLine(H, t[..LineEnd(t)]).Some? && ParseLog(H, t[LineEnd(t)..]).Success?
    ensures ParseLog(H, t).value == [ParseLine(H, t[..LineEnd(t)]).value] + ParseLog(H, t[LineEnd(t)..]).value
  {
    hide ParseLine;
  }

  function Prepend(e: Entry, r: Result<seq<Entry>, LogError>): Result<seq<Entry>, LogError> {
    match r
    case Failure(error) => Failure(error)
    case Success(es) => Success([e] + es)
  }

  lemma LineEndOfLineText(e: Entry, rest: string)
    requires IsName(e.logId)
    ensures LineEnd(LineText(e) + rest) == |LineText(e)| && !IsBlank(LineText(e))
  {
    LineTextShape(e);
    hide LineText;
    var line, t := LineText(e), LineText(e) + rest;
    assert forall i :: 0 <= i < |line| - 1 ==> t[i] == line[..|line| - 1][i];
    assert t[|line| - 1] == '\n';
    assert line[0] == '{';
  }

  lemma ParseLogCons(H: Hash, e: Entry, rest: string)
    requires ValidEntry(H, e)
    ensures ParseLog(H, LineText(e) + rest) == Prepend(e, ParseLog(H, rest))
  {
    LineTextShape(e);
    ParseCanonicalLine(H, e);
    LineEndOfLineText(e, rest);
    hide LineText, ParseLine;
    var t := LineText(e) + rest;
    assert t[..LineEnd(t)] == LineText(e) && t[LineEnd(t)..] == rest;
  }

  /** Reading canonical text followed by more text reads the entries first. */
  lemma {:induction false} ParseLogPrefix(H: Hash, es: seq<Entry>, rest: string)
    requires AllValid(H, es)
    ensures ParseLog(H, rest).Failure? ==> ParseLog(H, CanonicalText(es) + rest) == ParseLog(H, rest)
    ensures ParseLog(H, rest).Success? ==>
              ParseLog(H, CanonicalText(es) + rest) == Success(es + ParseLog(H, rest).value)
  {
    hide LineText, ParseLog, ValidEntry;
    if es == [] {
      assert CanonicalText(es) + rest == rest;
      if ParseLog(H, rest).Success? {
        assert es + ParseLog(H, rest).value == ParseLog(H, rest).value;
      }
    } else {
      ParseLogPrefix(H, es[1..], rest);
      ParseLogCons(H, es[0], CanonicalText(es[1..]) + rest);
      assert CanonicalText(es) + rest == LineText(es[0]) + (CanonicalText(es[1..]) + rest);
      if ParseLog(H, rest).Success? {
        assert [es[0]] + (es[1..] + ParseLog(H, rest).value) == es + ParseLog(H, rest).value;
      }
    }
  }

  lemma CanonicalTextCons(e: Entry, es: seq<Entry>)
    ensures CanonicalText([e] + es) == LineText(e) + CanonicalText(es)
  {
    hide LineText;
    assert ([e] + es)[1..] == es;
  }

  lemma AllValidCons(H: Hash, e: Entry, es: seq<Entry>)
    ensures AllValid(H, [e] + es) <==> ValidEntry(H, e) && AllValid(H, es)
  {
    hide ValidEntry;
    var all := [e] + es;
    assert all[0] == e && forall i :: 0 <= i < |es| ==> all[i + 1] == es[i];
    if AllValid(H, all) {
      forall i | 0 <= i < |es| ensures ValidEntry(H, es[i]) {
        assert all[i + 1] == es[i];
      }
    }
  }

  lemma NoLines()
    ensures CanonicalText([]) == ""
    ensures forall H: Hash :: ParseLog(H, "") == Success([]) && AllValid(H, [])
  {
  }

  lemma {:induction false} CanonicalTextOfParsedLog(H: Hash, t: string)
    requires ParseLog(H, t).Success?
    ensures t == CanonicalText(ParseLog(H, t).value) && AllValid(H, ParseLog(H, t).value)
    decreases |t|
  {
    hide *;
    if t == "" {
      NoLines();
    } else {
      var k := LineEnd(t);
      FirstLineRead(H, t);
      ParsedLineIsCanonical(H, t[..k]);
      CanonicalTextOfParsedLog(H, t[k..]);
      CanonicalTextCons(ParseLine(H, t[..k]).value, ParseLog(H, t[k..]).value);
      AllValidCons(H, ParseLine(H, t[..k]).value, ParseLog(H, t[k..]).value);
      assert t == t[..k] + t[k..];
    }
  }

  /** Log text round trip, in both directions: a text is read as `es` exactly when it is the
      concatenation of the canonical lines of the valid entries `es`. */
  lemma ParseLogExact(H: Hash, t: string, es: seq<Entry>)
    ensures ParseLog(H, t) == Success(es) <==> t == CanonicalText(es) && AllValid(H, es)
  {
    if AllValid(H, es) {
      ParseLogPrefix(H, es, "");
      assert CanonicalText(es) + "" == CanonicalText(es) && es + [] == es;
    }
    if ParseLog(H, t).Success? {
      CanonicalTextOfParsedLog(H, t);
    }
  }

  lemma {:induction false} CanonicalTextConcat(a: seq<Entry>, b: seq<Entry>)
    ensures CanonicalText(a + b) == CanonicalText(a) + CanonicalText(b)
  {
    hide *;
    if a == [] {
      NoLines();
      assert a + b == b;
    } else {
      var e, rest := a[0], a[1..];
      assert a == [e] + rest && a + b == [e] + (rest + b);
      CanonicalTextConcat(rest, b);
      CanonicalTextCons(e, rest);
      CanonicalTextCons(e, rest + b);
    }
  }

  lemma CanonicalTextSnoc(es: seq<Entry>, e: Entry)
    ensures CanonicalText(es + [e]) == CanonicalText(es) + LineText(e)
  {
    hide *;
    CanonicalTextConcat(es, [e]);
    NoLines();
    CanonicalTextCons(e, []);
    assert [e] + [] == [e];
  }

  /** A line cut short before its line break makes the whole log unreadable. */
  lemma TornLineUnreadable(H: Hash, es: seq<Entry>, e: Entry, k: nat)
    requires AllValid(H, es) && ValidEntry(H, e) && 0 < k < |LineText(e)|
    ensures ParseLog(H, CanonicalText(es) + LineText(e)[..k]) == Failure(TruncatedLine)
  {
    LineTextShape(e);
    var torn := LineText(e)[..k];
    assert forall i :: 0 <= i < k ==> torn[i] == LineText(e)[..|LineText(e)| - 1][i];
    assert LineEnd(torn) == k && torn[..k] == torn;
    ParseLogPrefix(H, es, torn);
  }

  // ------------------------------------------------------------ newline translation

  lemma {:induction false} TranslateUnchanged(t: string)
    requires '\r' !in t
    ensures Translate(t) == t
  {
    if t != "" {
      TranslateUnchanged(t[1..]);
    }
  }

  /** Translation distributes over a concatenation that does not split a `\r\n`. */
  /** How many characters the translation of a text consumes first, and the one it gives for them. */
  function Width(raw: string): nat {
    if |raw| > 1 && raw[0] == '\r' && raw[1] == '\n' then 2 else 1
  }

  lemma TranslateStep(raw: string)
    requires raw != ""
    ensures Translate(raw) == [if raw[0] == '\r' then '\n' else raw[0]] + Translate(raw[Width(raw)..])
  {
  }

  lemma WidthConcat(a: string, b: string)
    requires a != "" && (b == "" || b[0] != '\n')
    ensures Width(a + b) == Width(a) && (a + b)[0] == a[0] && (a + b)[Width(a)..] == a[Width(a)..] + b
  {
  }

  lemma {:induction false} TranslateConcat(a: string, b: string)
    requires b == "" || b[0] != '\n'
    ensures Translate(a + b) == Translate(a) + Translate(b)
    decreases |a|
  {
    if a == "" {
      assert a + b == b;
    } else {
      WidthConcat(a, b);
      TranslateStep(a + b);
      TranslateStep(a);
      TranslateConcat(a[Width(a)..], b);
      hide Translate, Width;
    }
  }

  lemma {:induction false} CanonicalTextUnbroken(H: Hash, es: seq<Entry>)
    requires AllValid(H, es)
    ensures '\r' !in CanonicalText(es)
  {
    hide LineText, ParseLine;
    if es != [] {
      LineTextShape(es[0]);
      var line := LineText(es[0]);
      assert forall i :: 0 <= i < |line| - 1 ==> line[i] == line[..|line| - 1][i];
      CanonicalTextUnbroken(H, es[1..]);
    }
  }

  /** Appending part of a canonical line to the raw text appends it to the translated text. */
  lemma TranslateAppended(raw: string, e: Entry, k: nat)
    requires IsName(e.logId) && k <= |LineText(e)|
    ensures Translate(raw + LineText(e)[..k]) == Translate(raw) + LineText(e)[..k]
  {
    LineTextShape(e);
    var line := LineText(e);
    assert forall i :: 0 <= i < |line| - 1 ==> line[i] == line[..|line| - 1][i];
    assert '\r' !in line[..k];
    TranslateConcat(raw, line[..k]);
    TranslateUnchanged(line[..k]);
  }

  // ------------------------------------------------------------------ the read loop

  /** `_read_entries`: the loop over the lines of the opened file. */
  method ReadEntries(H: Hash, raw: string) returns (r: Result<seq<Entry>, LogError>)
    ensures r == ParseLog(H, Translate(raw))
  {
    hide ParseLine;
    var rest := Translate(raw);
    var entries: seq<Entry> := [];
    ghost var all := ParseLog(H, rest);
    if all.Success? {
      assert [] + all.value == all.value;
    }
    while rest != ""
      invariant match ParseLog(H, rest)
                case Success(es) => ParseLog(H, Translate(raw)) == Success(entries + es)
                case Failure(error) => ParseLog(H, Translate(raw)) == Failure(error)
      decreases |rest|
    {
      var line := rest[..LineEnd(rest)];
      var checked := CheckLine(H, line);
      if checked.Failure? {
        return Failure(checked.error);
      }
      ghost var next := ParseLog(H, rest[|line|..]);
      if next.Success? {
        assert entries + ([checked.value] + next.value) == entries + [checked.value] + next.value;
      }
      entries := entries + [checked.value];
      rest := rest[|line|..];
    }
    assert entries + [] == entries;
    return Success(entries);
  }
}

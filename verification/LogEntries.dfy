/** One entry of the transparency log, its validator and its canonical line
    (src/skill_native/transparency_log.py, `TransparencyLogEntry`, `_canonical_line`). */
module LogEntries {
  import opened Wrappers
  import opened Hashing
  import opened CanonicalJson
  import opened Strings

  datatype Entry = Entry(
    logId: string,
    sequence: nat,
    previous: Option<Digest>,
    envelope: Digest,
    statement: Digest,
    bundle: Digest,
    keyIds: seq<Digest>,
    verification: Digest,
    digest: Digest)

  const BUNDLE: Lead := "{\"bundle_digest\":"
  const DIGEST: Lead := ",\"entry_digest\":"
  const ENVELOPE: Lead := ",\"envelope_digest\":"
  const KEY_IDS: Lead := ",\"key_ids\":"
  const LOG_ID: Lead := ",\"log_id\":"
  const PREVIOUS: Lead := ",\"previous_entry_digest\":"
  const SEQUENCE: Lead := ",\"schema_version\":\"1.0\",\"sequence\":"
  const STATEMENT: Lead := ",\"statement_digest\":"
  const VERIFICATION: Lead := ",\"verification_receipt_digest\":"
  const CLOSING: Lead := "}"

  const PAYLOAD := Layout([
    Field(BUNDLE, DigestKind),
    Field(ENVELOPE, DigestKind),
    Field(KEY_IDS, DigestListKind),
    Field(LOG_ID, NameKind),
    Field(PREVIOUS, MaybeDigestKind),
    Field(SEQUENCE, NumberKind),
    Field(STATEMENT, DigestKind),
    Field(VERIFICATION, DigestKind)], CLOSING)

  const LINE := Layout([
    Field(BUNDLE, DigestKind),
    Field(DIGEST, DigestKind),
    Field(ENVELOPE, DigestKind),
    Field(KEY_IDS, DigestListKind),
    Field(LOG_ID, NameKind),
    Field(PREVIOUS, MaybeDigestKind),
    Field(SEQUENCE, NumberKind),
    Field(STATEMENT, DigestKind),
    Field(VERIFICATION, DigestKind)], CLOSING)

  function PayloadValues(e: Entry): (vs: seq<Value>)
    ensures |vs| == |PAYLOAD.fields|
  {
    [ADigest(e.bundle), ADigest(e.envelope), DigestList(e.keyIds), Name(e.logId), MaybeDigest(e.previous),
     Number(e.sequence), ADigest(e.statement), ADigest(e.verification)]
  }

  function LineValues(e: Entry): (vs: seq<Value>)
    ensures |vs| == |LINE.fields|
  {
    [ADigest(e.bundle), ADigest(e.digest), ADigest(e.envelope), DigestList(e.keyIds), Name(e.logId),
     MaybeDigest(e.previous), Number(e.sequence), ADigest(e.statement), ADigest(e.verification)]
  }

  /** The JSON text whose hash is the entry digest: every field but the digest itself. */
  function PayloadText(e: Entry): string {
    Write(PAYLOAD, PayloadValues(e))
  }

  /** The bytes hashed into the entry digest. */
  function EntryInput(e: Entry): seq<int> {
    Codes(PayloadText(e))
  }

  /** The line published in the log. */
  function LineText(e: Entry): string {
    Write(LINE, LineValues(e)) + "\n"
  }

  predicate SortedUnique(keyIds: seq<Digest>) {
    forall i, j :: 0 <= i < j < |keyIds| ==> StringLess(Hex(keyIds[i]), Hex(keyIds[j]))
  }

  /** The checks of the entry validator. */
  predicate ValidEntry(H: Hash, e: Entry) {
    && IsName(e.logId)
    && (e.sequence == 0 <==> e.previous == None)
    && e.keyIds != [] && SortedUnique(e.keyIds)
    && e.digest == H(EntryInput(e))
  }

  function EntryOfValues(vs: seq<Value>): Entry
    requires Fits(vs, LINE)
  {
    assert forall i :: 0 <= i < |vs| ==> HasKind(vs[i], LINE.fields[i].kind);
    Entry(vs[4].name, vs[6].number, vs[5].maybe, vs[2].digest, vs[7].digest, vs[0].digest,
          vs[3].digests, vs[8].digest, vs[1].digest)
  }

  /** Parsing, validation and the comparison with the canonical line, in one. */
  function ParseLine(H: Hash, line: string): Option<Entry> {
    if line == "" || line[|line| - 1] != '\n' then None
    else match Read(LINE, line[..|line| - 1])
      case None => None
      case Some(vs) =>
        WriteOfRead(LINE, line[..|line| - 1]);
        var e := EntryOfValues(vs);
        if ValidEntry(H, e) then Some(e) else None
  }

  lemma PayloadFits(e: Entry)
    requires IsName(e.logId)
    ensures Fits(PayloadValues(e), PAYLOAD)
  {
  }

  lemma LineFits(e: Entry)
    requires IsName(e.logId)
    ensures Fits(LineValues(e), LINE)
  {
  }

  /** Entries whose digests hash the same bytes agree on every field but the digest. */
  lemma PayloadInjective(a: Entry, b: Entry)
    requires IsName(a.logId) && IsName(b.logId) && EntryInput(a) == EntryInput(b)
    ensures a == b.(digest := a.digest)
  {
    CodesInjective(PayloadText(a), PayloadText(b));
    PayloadFits(a);
    PayloadFits(b);
    WriteInjective(PAYLOAD, PayloadValues(a), PayloadValues(b));
    assert forall i :: 0 <= i < 8 ==> PayloadValues(a)[i] == PayloadValues(b)[i];
  }

  lemma EntryOfLineValues(e: Entry)
    requires IsName(e.logId)
    ensures Fits(LineValues(e), LINE) && EntryOfValues(LineValues(e)) == e
  {
    LineFits(e);
  }

  lemma LineValuesOfEntry(vs: seq<Value>)
    requires Fits(vs, LINE)
    ensures LineValues(EntryOfValues(vs)) == vs
  {
    assert forall i :: 0 <= i < |vs| ==> HasKind(vs[i], LINE.fields[i].kind);
  }

  lemma ParseCanonicalLine(H: Hash, e: Entry)
    requires ValidEntry(H, e)
    ensures ParseLine(H, LineText(e)) == Some(e)
  {
    EntryOfLineValues(e);
    ReadOfWrite(LINE, LineValues(e));
    assert LineText(e)[..|LineText(e)| - 1] == Write(LINE, LineValues(e));
  }

  lemma ParsedLineIsCanonical(H: Hash, line: string)
    requires ParseLine(H, line).Some?
    ensures line == LineText(ParseLine(H, line).value) && ValidEntry(H, ParseLine(H, line).value)
  {
    hide Read, Write, ValidEntry, EntryOfValues, LineValues;
    var body := line[..|line| - 1];
    WriteOfRead(LINE, body);
    var vs := Read(LINE, body).value;
    LineValuesOfEntry(vs);
    assert Write(LINE, vs) == body && line == body + "\n";
  }

  /** A line is accepted exactly when it is the canonical line of a valid entry. */
  lemma ParseLineExact(H: Hash, line: string, e: Entry)
    ensures ParseLine(H, line) == Some(e) <==> line == LineText(e) && ValidEntry(H, e)
  {
    if ValidEntry(H, e) {
      ParseCanonicalLine(H, e);
    }
    if ParseLine(H, line).Some? {
      ParsedLineIsCanonical(H, line);
    }
  }

  /** A canonical line has one line break, its last character, and starts with a brace. */
  lemma LineTextShape(e: Entry)
    requires IsName(e.logId)
    ensures |LineText(e)| > 1 && LineText(e)[0] == '{'
    ensures LineText(e)[|LineText(e)| - 1] == '\n'
    ensures NoLineBreak(LineText(e)[..|LineText(e)| - 1])
  {
    LineFits(e);
    WriteNoLineBreak(LINE, LineValues(e));
    var body := Write(LINE, LineValues(e));
    assert LineText(e)[..|LineText(e)| - 1] == body;
    assert body[0] == LINE.fields[0].lead[0];
  }
}

/** The stored bytes of a capture shard: one canonical JSON object per row, and the check that
    reads them back. A stored number is the text Python prints for the float. */
module CapturePayload {
  import opened Wrappers
  import opened Reals
  import opened CaptureContract
  import opened CaptureRows
  import opened Json
  import opened JsonRoundTrip
  import opened CanonicalJsonl

  type StoredToken = CaptureToken<string>

  const SCHEMA := "soup.autodistill.capture-token.v1"

  const FIELDS: set<string> := {
    "schema", "example_id", "trajectory_kind", "position", "vocab_size", "context_token_ids",
    "target_token_id", "student_sampled_token_id", "top_k_token_ids", "forced_token_ids",
    "selected_token_ids", "teacher_log_probabilities", "tail_mass", "teacher_entropy", "temperature"
  }

  // ----- the JSON form of a row -----

  function NatValues(ids: seq<nat>): (r: seq<Value>)
    ensures |r| == |ids| && forall i :: 0 <= i < |r| ==> r[i] == Int(ids[i])
  {
    seq(|ids|, i requires 0 <= i < |ids| => Int(ids[i]))
  }

  function FloatValues(xs: seq<string>): (r: seq<Value>)
    ensures |r| == |xs| && forall i :: 0 <= i < |r| ==> r[i] == Float(xs[i])
  {
    seq(|xs|, i requires 0 <= i < |xs| => Float(xs[i]))
  }

  function OptionalValue(id: Option<nat>): Value {
    match id
    case None => Null
    case Some(n) => Int(n)
  }

  function KindText(kind: View): string {
    if kind.TeacherExpert? then "teacher_expert" else "student_rollout"
  }

  /** `model_dump(mode="json", by_alias=True)` of a row. */
  function ToJson(t: StoredToken): Value {
    Obj(map[
      "schema" := Str(SCHEMA),
      "example_id" := Str(t.exampleId),
      "trajectory_kind" := Str(KindText(t.kind)),
      "position" := Int(t.position),
      "vocab_size" := Int(t.vocabSize),
      "context_token_ids" := Arr(NatValues(t.context)),
      "target_token_id" := OptionalValue(t.target),
      "student_sampled_token_id" := OptionalValue(t.sampled),
      "top_k_token_ids" := Arr(NatValues(t.topK)),
      "forced_token_ids" := Arr(NatValues(t.forced)),
      "selected_token_ids" := Arr(NatValues(t.selected)),
      "teacher_log_probabilities" := Arr(FloatValues(t.logProbabilities)),
      "tail_mass" := Float(t.tailMass),
      "teacher_entropy" := Float(t.entropy),
      "temperature" := Float(t.temperature)])
  }

  // ----- reading a row -----

  function AsNat(v: Value): Option<nat> {
    if v.Int? && v.n >= 0 then Some(v.n) else None
  }

  function AsFloat(v: Value): Option<string> {
    if v.Float? then Some(v.text) else None
  }

  function AsText(v: Value): Option<string> {
    if v.Str? then Some(v.s) else None
  }

  function AsOptional(v: Value): Option<Option<nat>> {
    if v.Null? then Some(None)
    else
      var n :- AsNat(v);
      Some(Some(n))
  }

  function AsNats(v: Value): Option<seq<nat>> {
    if v.Arr? && forall i :: 0 <= i < |v.items| ==> AsNat(v.items[i]).Some? then
      Some(seq(|v.items|, i requires 0 <= i < |v.items| && AsNat(v.items[i]).Some? => AsNat(v.items[i]).value))
    else None
  }

  function AsFloats(v: Value): Option<seq<string>> {
    if v.Arr? && forall i :: 0 <= i < |v.items| ==> v.items[i].Float? then
      Some(seq(|v.items|, i requires 0 <= i < |v.items| && v.items[i].Float? => v.items[i].text))
    else None
  }

  function AsKind(v: Value): Option<View> {
    if v == Str("teacher_expert") then Some(TeacherExpert)
    else if v == Str("student_rollout") then Some(StudentRollout)
    else None
  }

  /** The typed fields of `CaptureToken.model_validate`; no field missing, none extra. */
  function FromJson(v: Value): Option<StoredToken> {
    if !v.Obj? || v.fields.Keys != FIELDS || v.fields["schema"] != Str(SCHEMA) then None
    else
      var exampleId :- AsText(v.fields["example_id"]);
      var kind :- AsKind(v.fields["trajectory_kind"]);
      var position :- AsNat(v.fields["position"]);
      var vocabSize :- AsNat(v.fields["vocab_size"]);
      var context :- AsNats(v.fields["context_token_ids"]);
      var target :- AsOptional(v.fields["target_token_id"]);
      var sampled :- AsOptional(v.fields["student_sampled_token_id"]);
      var topK :- AsNats(v.fields["top_k_token_ids"]);
      var forced :- AsNats(v.fields["forced_token_ids"]);
      var selected :- AsNats(v.fields["selected_token_ids"]);
      var logProbabilities :- AsFloats(v.fields["teacher_log_probabilities"]);
      var tailMass :- AsFloat(v.fields["tail_mass"]);
      var entropy :- AsFloat(v.fields["teacher_entropy"]);
      var temperature :- AsFloat(v.fields["temperature"]);
      Some(CaptureToken(exampleId, kind, position, vocabSize, context, target, sampled, topK, forced,
                        selected, logProbabilities, tailMass, entropy, temperature))
  }

  lemma NatsRoundTrip(ids: seq<nat>)
    ensures AsNats(Arr(NatValues(ids))) == Some(ids)
  {
    assert AsNats(Arr(NatValues(ids))).value == ids;
  }

  lemma FloatsRoundTrip(xs: seq<string>)
    ensures AsFloats(Arr(FloatValues(xs))) == Some(xs)
  {
    assert AsFloats(Arr(FloatValues(xs))).value == xs;
  }

  lemma FieldsOfToJson(t: StoredToken)
    ensures ToJson(t).fields.Keys == FIELDS
  {}

  ghost predicate ScalarFields(v: Value, t: StoredToken)
    requires v.Obj? && v.fields.Keys == FIELDS
  {
    && v.fields["schema"] == Str(SCHEMA)
    && v.fields["example_id"] == Str(t.exampleId)
    && v.fields["trajectory_kind"] == Str(KindText(t.kind))
    && v.fields["position"] == Int(t.position)
    && v.fields["vocab_size"] == Int(t.vocabSize)
    && v.fields["target_token_id"] == OptionalValue(t.target)
    && v.fields["student_sampled_token_id"] == OptionalValue(t.sampled)
    && v.fields["tail_mass"] == Float(t.tailMass)
    && v.fields["teacher_entropy"] == Float(t.entropy)
    && v.fields["temperature"] == Float(t.temperature)
  }

  ghost predicate ListFields(v: Value, t: StoredToken)
    requires v.Obj? && v.fields.Keys == FIELDS
  {
    && v.fields["context_token_ids"] == Arr(NatValues(t.context))
    && v.fields["top_k_token_ids"] == Arr(NatValues(t.topK))
    && v.fields["forced_token_ids"] == Arr(NatValues(t.forced))
    && v.fields["selected_token_ids"] == Arr(NatValues(t.selected))
    && v.fields["teacher_log_probabilities"] == Arr(FloatValues(t.logProbabilities))
  }

  lemma ToJsonFields(t: StoredToken)
    ensures ToJson(t).fields.Keys == FIELDS
    ensures ScalarFields(ToJson(t), t) && ListFields(ToJson(t), t)
  {
    FieldsOfToJson(t);
  }

  lemma FieldsDecode(v: Value, t: StoredToken)
    requires v.Obj? && v.fields.Keys == FIELDS
    requires ScalarFields(v, t) && ListFields(v, t)
    ensures FromJson(v) == Some(t)
  {
    NatsRoundTrip(t.context);
    NatsRoundTrip(t.topK);
    NatsRoundTrip(t.forced);
    NatsRoundTrip(t.selected);
    FloatsRoundTrip(t.logProbabilities);
  }

  lemma RowRoundTrip(t: StoredToken)
    ensures FromJson(ToJson(t)) == Some(t)
  {
    ToJsonFields(t);
    FieldsDecode(ToJson(t), t);
  }

  // ----- payloads -----

  /** A row as the model object holds it: its floats are finite floats and it meets the contract. */
  ghost predicate Storable(fl: Floats, m: Math, t: StoredToken) {
    && Contract(m, fl.value, t)
    && fl.Canonical(t.tailMass) && fl.Canonical(t.entropy) && fl.Canonical(t.temperature)
    && forall i :: 0 <= i < |t.logProbabilities| ==> fl.Canonical(t.logProbabilities[i])
  }

  ghost predicate AllStorable(fl: Floats, m: Math, rows: seq<StoredToken>) {
    forall i :: 0 <= i < |rows| ==> Storable(fl, m, rows[i])
  }

  function JsonRows(rows: seq<StoredToken>): (r: seq<Value>)
    ensures |r| == |rows| && forall i :: 0 <= i < |r| ==> r[i] == ToJson(rows[i])
  {
    seq(|rows|, i requires 0 <= i < |rows| => ToJson(rows[i]))
  }

  /** `_capture_payload`. */
  function Payload(limits: Limits<string>, rows: seq<StoredToken>): Result<string, ScanError> {
    var _ :- ScanRows(limits, rows);
    Ok(Frame(JsonRows(rows)))
  }

  /** `_capture_payload` with its two loops: the scan, then the rows joined line by line. */
  method BuildPayload(limits: Limits<string>, rows: seq<StoredToken>) returns (r: Result<string, ScanError>)
    ensures r == Payload(limits, rows)
  {
    hide Print, ToJson;
    var scan := ScanPayloadRows(limits, rows);
    if scan.Err? {
      return Err(scan.error);
    }
    var payload := [];
    assert JsonRows(rows[..0]) == [];
    for i := 0 to |rows|
      invariant payload == Frame(JsonRows(rows[..i]))
    {
      var line := Print(ToJson(rows[i]));
      assert JsonRows(rows[..i + 1]) == JsonRows(rows[..i]) + [ToJson(rows[i])];
      FrameAppend(JsonRows(rows[..i]), [ToJson(rows[i])]);
      FrameOne(ToJson(rows[i]));
      payload := payload + (line + "\n");
    }
    assert rows[..|rows|] == rows;
    return Ok(payload);
  }

  lemma FrameOne(v: Value)
    ensures Frame([v]) == Print(v) + "\n"
  {
    hide Print;
    assert [v][1..] == [] && PrintAll([v]) == [Print(v)];
    assert [Print(v)][1..] == [] && FrameLines([]) == [];
    assert "\n" + FrameLines([]) == "\n";
  }

  datatype DecodeError = NotJson | NotACaptureToken

  /** `CaptureToken.model_validate(json.loads(line))`. */
  function DecodeRow(fl: Floats, m: Math, line: string): Result<StoredToken, DecodeError> {
    match Loads(fl, line)
    case None => Err(NotJson)
    case Some(v) =>
      match FromJson(v)
      case None => Err(NotACaptureToken)
      case Some(t) => if Contract(m, fl.value, t) then Ok(t) else Err(NotACaptureToken)
  }

  function DecodeLines(fl: Floats, m: Math, lines: seq<string>): (r: seq<Result<StoredToken, DecodeError>>)
    ensures |r| == |lines|
  {
    seq(|lines|, i requires 0 <= i < |lines| => DecodeRow(fl, m, lines[i]))
  }

  function DecodeRows(fl: Floats, m: Math, payload: string): Result<seq<StoredToken>, DecodeError> {
    Sequence(DecodeLines(fl, m, SplitLines(ByteBreak, payload)))
  }

  /** `_verify_semantics`, without the digest check it ends with. */
  predicate Semantics(fl: Floats, m: Math, limits: Limits<string>, payload: string, rowCount: nat, tokenCount: nat) {
    && Canonicalize(fl, payload) == Ok(payload)
    && var rows := DecodeRows(fl, m, payload);
       && rows.Ok?
       && Payload(limits, rows.value) == Ok(payload)
       && |rows.value| == rowCount == tokenCount
  }

  // ----- stored rows are clean canonical rows -----

  lemma {:induction false} FieldsAreClean(v: Value, keys: seq<string>)
    requires v.Obj? && forall k <- keys :: k in v.fields
    requires forall k <- v.fields.Keys :: CleanText(k) && Clean(v.fields[k])
    ensures CleanFields(v, keys)
  {
    if keys != [] {
      FieldsAreClean(v, keys[1..]);
    }
  }

  lemma {:induction false} ScalarsAreClean(items: seq<Value>)
    requires forall i :: 0 <= i < |items| ==> items[i].Int? || items[i].Float?
    ensures AllClean(items)
  {
    if items != [] {
      ScalarsAreClean(items[1..]);
    }
  }

  lemma ArtifactIdIsClean(s: string)
    requires IsArtifactId(s)
    ensures CleanText(s)
  {
    forall i | 0 <= i < |s| ensures !WideBreak(s[i]) {
      assert IsArtifactIdChar(s[i]);
    }
  }

  lemma SomeNamesAreClean()
    ensures CleanText("schema") && CleanText("example_id") && CleanText("trajectory_kind")
  {}

  lemma MoreNamesAreClean()
    ensures CleanText("position") && CleanText("vocab_size") && CleanText("context_token_ids")
    ensures CleanText("target_token_id") && CleanText("student_sampled_token_id")
  {}

  lemma OtherNamesAreClean()
    ensures CleanText("top_k_token_ids") && CleanText("forced_token_ids")
    ensures CleanText("selected_token_ids") && CleanText("teacher_log_probabilities")
    ensures CleanText("tail_mass") && CleanText("teacher_entropy") && CleanText("temperature")
  {}

  lemma FieldNamesAreClean(k: string)
    requires k in FIELDS
    ensures CleanText(k)
  {
    SomeNamesAreClean();
    MoreNamesAreClean();
    OtherNamesAreClean();
  }

  predicate PlainNumber(fl: Floats, v: Value) { v.Int? || (v.Float? && fl.Canonical(v.text)) }

  /** The kinds of value a row holds: nothing nested, clean text, canonical floats. */
  predicate Plain(fl: Floats, v: Value) {
    || v.Null? || PlainNumber(fl, v)
    || (v.Str? && CleanText(v.s))
    || (v.Arr? && forall i :: 0 <= i < |v.items| ==> PlainNumber(fl, v.items[i]))
  }

  lemma PlainIsCanonical(fl: Floats, v: Value)
    requires Plain(fl, v)
    ensures Valid(fl, v) && Clean(v)
  {
    if v.Arr? {
      ScalarsAreClean(v.items);
    }
  }

  lemma ListsArePlain(fl: Floats, m: Math, t: StoredToken)
    requires Storable(fl, m, t)
    ensures Plain(fl, Arr(NatValues(t.context))) && Plain(fl, Arr(NatValues(t.topK)))
    ensures Plain(fl, Arr(NatValues(t.forced))) && Plain(fl, Arr(NatValues(t.selected)))
    ensures Plain(fl, Arr(FloatValues(t.logProbabilities)))
  {}

  lemma LiteralsAreClean(kind: View)
    ensures CleanText(SCHEMA) && CleanText(KindText(kind))
  {
    assert CleanText("teacher_expert") && CleanText("student_rollout");
  }

  lemma TextsArePlain(fl: Floats, t: StoredToken)
    requires IsArtifactId(t.exampleId)
    ensures Plain(fl, Str(SCHEMA)) && Plain(fl, Str(t.exampleId)) && Plain(fl, Str(KindText(t.kind)))
  {
    ArtifactIdIsClean(t.exampleId);
    LiteralsAreClean(t.kind);
  }

  /** Every field of the row's JSON form is one of the values put there. */
  lemma FieldIs(t: StoredToken, k: string)
    requires k in FIELDS
    ensures ToJson(t).fields.Keys == FIELDS
    ensures ToJson(t).fields[k] in {
              Str(SCHEMA), Str(t.exampleId), Str(KindText(t.kind)), Int(t.position), Int(t.vocabSize),
              Arr(NatValues(t.context)), OptionalValue(t.target), OptionalValue(t.sampled),
              Arr(NatValues(t.topK)), Arr(NatValues(t.forced)), Arr(NatValues(t.selected)),
              Arr(FloatValues(t.logProbabilities)), Float(t.tailMass), Float(t.entropy), Float(t.temperature) }
  {
    FieldsOfToJson(t);
  }

  lemma RowIsCanonical(fl: Floats, m: Math, t: StoredToken)
    requires Storable(fl, m, t)
    ensures ToJson(t).Obj? && Valid(fl, ToJson(t)) && Clean(ToJson(t))
  {
    var v := ToJson(t);
    FieldsOfToJson(t);
    ListsArePlain(fl, m, t);
    TextsArePlain(fl, t);
    forall k | k in v.fields ensures CleanText(k) && Valid(fl, v.fields[k]) && Clean(v.fields[k]) {
      FieldNamesAreClean(k);
      FieldIs(t, k);
      PlainIsCanonical(fl, v.fields[k]);
    }
    FieldsAreClean(v, SortedKeys(v.fields.Keys));
  }

  lemma {:induction false} CleanEach(items: seq<Value>)
    requires forall i :: 0 <= i < |items| ==> Clean(items[i])
    ensures AllClean(items)
  {
    if items != [] {
      CleanEach(items[1..]);
    }
  }

  lemma JsonRowsAreCanonical(fl: Floats, m: Math, rows: seq<StoredToken>)
    requires AllStorable(fl, m, rows)
    ensures ValidRows(fl, JsonRows(rows)) && AllClean(JsonRows(rows))
  {
    forall i | 0 <= i < |rows|
      ensures JsonRows(rows)[i].Obj? && Valid(fl, JsonRows(rows)[i]) && Clean(JsonRows(rows)[i])
    {
      RowIsCanonical(fl, m, rows[i]);
    }
    CleanEach(JsonRows(rows));
  }

  // ----- what a written payload promises -----

  /** Every payload the publisher writes reads back as exactly the rows it was given. */
  lemma WrittenRowsDecode(fl: Floats, m: Math, rows: seq<StoredToken>)
    requires AllStorable(fl, m, rows)
    ensures DecodeRows(fl, m, Frame(JsonRows(rows))) == Ok(rows)
  {
    JsonRowsAreCanonical(fl, m, rows);
    SplitWholeFrame(fl, ByteBreak, JsonRows(rows));
    var lines := PrintAll(JsonRows(rows));
    PrintAllAt(JsonRows(rows));
    forall i | 0 <= i < |rows| ensures DecodeLines(fl, m, lines)[i] == Ok(rows[i]) {
      PrintedRowDecodes(fl, m, rows[i]);
      DecodeLineAt(fl, m, lines, i);
    }
    SequenceIs(DecodeLines(fl, m, lines), rows);
  }

  lemma DecodeLineAt(fl: Floats, m: Math, lines: seq<string>, i: nat)
    requires i < |lines|
    ensures DecodeLines(fl, m, lines)[i] == DecodeRow(fl, m, lines[i])
  {}

  lemma PrintedRowDecodes(fl: Floats, m: Math, t: StoredToken)
    requires Storable(fl, m, t)
    ensures DecodeRow(fl, m, Print(ToJson(t))) == Ok(t)
  {
    RowIsCanonical(fl, m, t);
    LoadsPrint(fl, ToJson(t));
    RowRoundTrip(t);
  }

  /** An untouched payload passes semantic verification, and no other rows have the same bytes. */
  lemma WrittenPayloadVerifies(fl: Floats, m: Math, limits: Limits<string>, rows: seq<StoredToken>)
    requires AllStorable(fl, m, rows) && Payload(limits, rows).Ok?
    ensures Semantics(fl, m, limits, Payload(limits, rows).value, |rows|, |rows|)
    ensures forall other :: AllStorable(fl, m, other) && Payload(limits, other) == Payload(limits, rows)
              ==> other == rows
  {
    JsonRowsAreCanonical(fl, m, rows);
    FrameCanonicalIff(fl, JsonRows(rows));
    WrittenRowsDecode(fl, m, rows);
    forall other | AllStorable(fl, m, other) && Payload(limits, other) == Payload(limits, rows)
      ensures other == rows
    {
      WrittenRowsDecode(fl, m, other);
    }
  }
}

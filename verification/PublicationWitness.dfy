/** Rows that can be published: what the statements about histories assume of captures can be met. */
module PublicationWitness {
  import opened Wrappers
  import opened Reals
  import opened Json
  import opened CaptureContract
  import opened CaptureRows
  import opened CapturePayload
  import opened Publication
  import opened PublicationRecovery
  import Ranking

  /** The floats 0 and 1 and their texts. */
  function TwoFloats(): Floats {
    Floats((t: string) => if t == "0.0" || t == "1.0" then Some(t) else None,
           (t: string) => if t == "1.0" then 1.0 else 0.0)
  }

  /** The only row there is over a vocabulary of one token. */
  function OnlyTokenRow(exampleId: string): StoredToken {
    CaptureToken(exampleId, TeacherExpert, 0, 1, [], Some(0), None, [0], [0], [0], ["0.0"], "0.0", "0.0", "1.0")
  }

  /** The limits of every plan. */
  function OneToken(plan: string): Limits<string> { Limits(1, "1.0", 1, 0) }

  lemma TwoFloatsAreLawful()
    ensures TwoFloats().Lawful() && TwoFloats().Canonical("0.0") && TwoFloats().Canonical("1.0")
  {
    assert IsFloatText("0.0") && IsFloatText("1.0");
  }

  lemma OnlyTokenIsStorable(m: Math, exampleId: string)
    requires m.Lawful() && IsArtifactId(exampleId)
    ensures Storable(TwoFloats(), m, OnlyTokenRow(exampleId))
  {
    hide IsArtifactId, IsFloatText;
    var fl, row := TwoFloats(), OnlyTokenRow(exampleId);
    TwoFloatsAreLawful();
    OnlyTokenMass(m, fl, row);
    OnlyTokenIds();
    assert UniqueAndSorted([0]) && InVocabulary([0], 1) && InVocabulary([], 1);
    assert 0 in [0];
  }

  lemma OnlyTokenIds()
    ensures Ascending(Ranking.Elements([0]) + Ranking.Elements([0]), 1) == [0]
  {
    assert Ranking.Elements([0]) + Ranking.Elements([0]) == {0};
    assert Ascending({0}, 0) == [];
  }

  lemma OnlyTokenMass(m: Math, fl: Floats, row: StoredToken)
    requires m.Lawful() && fl == TwoFloats() && row.logProbabilities == ["0.0"]
    ensures Sum(Exps(m, Values(fl.value, row.logProbabilities))) == 1.0
  {
    LnOne(m);
    assert m.exp(m.ln(1.0)) == 1.0;
    assert Exps(m, Values(fl.value, row.logProbabilities)) == [1.0];
    assert [1.0][..0] == [] && Sum([]) == 0.0;
  }

  /** In the environment of the capture publisher every such row can be published, and rows of two
      examples are two different captures. */
  lemma OnlyTokenIsPublishable(m: Math, plan: string, exampleId: string, planSha: string -> string,
                               payloadSha: string -> string, manifestSha: Manifest -> string)
    requires m.Lawful() && IsArtifactId(exampleId)
    ensures var env := CaptureEnv(TwoFloats(), m, OneToken, planSha, payloadSha, manifestSha);
            Publishable(env, TwoFloats(), m, plan, [OnlyTokenRow(exampleId)])
  {
    hide Storable, Sound;
    CaptureEnvIsSound(TwoFloats(), m, OneToken, planSha, payloadSha, manifestSha);
    OnlyTokenIsStorable(m, exampleId);
    var rows := [OnlyTokenRow(exampleId)];
    assert rows[..0] == [] && Check(OneToken(plan), rows[..0]) == Ok(START);
    assert RowError(OneToken(plan), rows[0]).None?;
    assert Step(START, exampleId, 0).Ok?;
    assert ScanRows(OneToken(plan), rows).Ok?;
    assert Payload(OneToken(plan), rows).Ok?;
  }
}

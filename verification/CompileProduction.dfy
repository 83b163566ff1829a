/** What the compile worker leaves for one observation: the index is written while the claim is
    produced, the record and the receipt only at the end of the batch. */
module CompileProduction {
  import opened Evidence
  import opened FingerprintIndex

  /** The index on disk, the records on file, and the observations with a terminal receipt. */
  datatype Store = Store(table: Table, committed: set<Version>, receipts: set<Id>)

  /** The version produced for an observation, given what the index found under the fingerprint: a new
      claim, an extension, or nothing when the found version already derives from the observation. */
  function Produced(found: Option<Version>, observation: Id, fp: Fingerprint, newId: Id, body: string): Option<Version> {
    match found
    case None => Some(Version(newId, fp, 1, true, body, {observation}))
    case Some(v) =>
      if observation in v.derivedFrom then None
      else Some(v.(number := v.number + 1, derivedFrom := v.derivedFrom + {observation}))
  }

  /** Production adds the observation exactly once: a new claim starts at version one with it, a found
      claim goes on as its next version with all it had, and the index then holds what was produced. */
  lemma ProductionExtends(t: Table, found: Option<Version>, observation: Id, fp: Fingerprint, newId: Id, body: string)
    requires Answers(t, fp, found) && newId !in t
    ensures var made := Produced(found, observation, fp, newId, body);
      && (made.None? <==> found.Some? && observation in found.value.derivedFrom)
      && (made.Some? ==>
            && made.value.active && made.value.fingerprint == fp
            && Upsert(t, made.value) == t[made.value.claimId := made.value]
            && (found.None? ==> made.value.claimId == newId && made.value.number == 1 && made.value.derivedFrom == {observation} && made.value.body == body)
            && (found.Some? ==>
                  && made.value.claimId == found.value.claimId && made.value.number == found.value.number + 1
                  && made.value.body == found.value.body
                  && forall x :: x in made.value.derivedFrom <==> x in found.value.derivedFrom || x == observation))
  {
  }

  /** Production writes the index at once. */
  function Indexed(s: Store, made: Option<Version>): Store {
    if made.None? then s else s.(table := Upsert(s.table, made.value))
  }

  /** The end of the batch: the record, if any, and the receipt. */
  function Committed(s: Store, made: Option<Version>, observation: Id): Store {
    s.(committed := s.committed + (if made.None? then {} else {made.value}), receipts := s.receipts + {observation})
  }

  /** Some file holds a version under the fingerprint that derives from the observation. */
  predicate OnFile(s: Store, fp: Fingerprint, observation: Id) {
    exists v :: v in s.committed && v.fingerprint == fp && observation in v.derivedFrom
  }

  /** The index answers with a version that derives from the observation but is on no file. */
  predicate Ghost(s: Store, found: Option<Version>, fp: Fingerprint, observation: Id) {
    found.Some? && observation in found.value.derivedFrom && !OnFile(s, fp, observation)
  }

  /** A batch that runs to its end leaves the receipt in any case, and a claim on file if and only if
      the index did not answer with an uncommitted version of the same observation. */
  lemma ReceiptedIsOnFileIff(s: Store, found: Option<Version>, observation: Id, fp: Fingerprint, newId: Id, body: string)
    requires Answers(s.table, fp, found)
    ensures var made := Produced(found, observation, fp, newId, body);
      var done := Committed(Indexed(s, made), made, observation);
      observation in done.receipts && (OnFile(done, fp, observation) <==> !Ghost(s, found, fp, observation))
  {
    var made := Produced(found, observation, fp, newId, body);
    var done := Committed(Indexed(s, made), made, observation);
    if made.Some? {
      assert made.value in done.committed;
    } else {
      assert done.committed == s.committed;
    }
  }

  /** The run: the worker produces a new claim, writes it to the index and dies before the commit. The
      re-run finds its own row, produces nothing, and the job is receipted although no file holds the
      claim, whatever the index answers and whatever new id is drawn. */
  lemma CrashedWorkerLosesClaim(s: Store, observation: Id, fp: Fingerprint, newId: Id, otherId: Id, body: string, found: Option<Version>)
    requires Answers(s.table, fp, None) && newId !in s.table && !OnFile(s, fp, observation)
    requires Answers(Indexed(s, Produced(None, observation, fp, newId, body)).table, fp, found)
    ensures var crashed := Indexed(s, Produced(None, observation, fp, newId, body));
      var made := Produced(found, observation, fp, otherId, body);
      var done := Committed(Indexed(crashed, made), made, observation);
      && Ghost(crashed, found, fp, observation) && made == None
      && observation in done.receipts && !OnFile(done, fp, observation)
  {
    var row := Produced(None, observation, fp, newId, body).value;
    var crashed := Indexed(s, Some(row));
    assert crashed.table[newId] == row && row.active && row.fingerprint == fp;
    assert found == Some(row);
    ReceiptedIsOnFileIff(crashed, found, observation, fp, otherId, body);
  }
}

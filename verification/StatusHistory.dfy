/** What the status of an evidence row means: which events of the log it goes back to. Said from the
    events' own fields, so that it holds the transition table and the update statements to account. */
module StatusHistory {
  import opened Evidence
  import opened StatusIndex

  // ---- Events, field by field ------------------------------------------------------------------

  /** The event is about this one observation. */
  predicate Hits(e: Observation, id: Id) {
    && e.body.scope == None && e.body.targetId == Some(id) && id != ""
    && (e.body.targetKind == None || e.body.targetKind == Some("observation"))
  }

  predicate Approving(e: Observation, id: Id) { Hits(e, id) && e.kind == QuarantineReview && e.body.action == Some("approve") }
  predicate Rejecting(e: Observation, id: Id) { Hits(e, id) && e.kind == QuarantineReview && e.body.action == Some("reject") }
  predicate Tombing(e: Observation, id: Id) { Hits(e, id) && e.kind == Tombstone }
  predicate Redacting(e: Observation, id: Id) { Hits(e, id) && e.kind == Redaction }

  /** The event erases the whole scope. */
  predicate Erasing(e: Observation, scope: string) {
    e.body.scope == Some(scope) && scope != "" && e.kind == Erasure && e.body.reason != Some("offboarding")
  }

  /** The event retires what is still open in the scope. */
  predicate Closing(e: Observation, scope: string) {
    && e.body.scope == Some(scope) && scope != ""
    && (e.kind == Tombstone || e.kind == Redaction || (e.kind == Erasure && e.body.reason == Some("offboarding")))
  }

  /** An accepted row leaves that status only by these, a quarantined one only by those. */
  predicate Retiring(e: Observation, id: Id, scope: string) { Closing(e, scope) || Tombing(e, id) || Redacting(e, id) }
  predicate Settling(e: Observation, id: Id, scope: string) { Closing(e, scope) || Tombing(e, id) || Approving(e, id) || Rejecting(e, id) }

  /** One event. */
  function Next(s: Status, e: Observation, id: Id, scope: string): Status {
    if Erasing(e, scope) then Erased
    else if s == Accepted && Retiring(e, id, scope) then (if Redacting(e, id) then Redacted else Tombstoned)
    else if s == Quarantined && Settling(e, id, scope) then
      (if Approving(e, id) then Accepted else if Rejecting(e, id) then Rejected else Tombstoned)
    else s
  }

  /** A series of events. */
  function History(s: Status, id: Id, scope: string, log: seq<Observation>): Status {
    if log == [] then s else Next(History(s, id, scope, log[..|log| - 1]), log[|log| - 1], id, scope)
  }

  /** An update statement does to each row what the event says. */
  lemma EffectIs(id: Id, r: Row, e: Observation)
    ensures (if Mutates(e) then Effect(id, r, e) else r.status) == Next(r.status, e, id, r.scope)
  {
  }

  lemma ApplyIs(t: Table, o: Observation, id: Id)
    requires id in t
    ensures id in Apply(t, o) && Apply(t, o)[id] == t[id].(status := Next(t[id].status, o, id, t[id].scope))
  {
    hide Effect, Next, Clashes;
    EffectIs(id, t[id], o);
  }

  /** Over any log the status of a row is its history. */
  lemma {:induction false} RowHistory(t: Table, log: seq<Observation>, id: Id)
    requires id in t
    ensures id in Replay(t, log) && Replay(t, log)[id] == t[id].(status := History(t[id].status, id, t[id].scope, log))
  {
    hide Apply, Next;
    if log != [] {
      var n := |log| - 1;
      RowHistory(t, log[..n], id);
      ApplyIs(Replay(t, log[..n]), log[n], id);
    }
  }

  // ---- Births -------------------------------------------------------------------------------------

  /** A row comes from the record of its id, unless the id or one of the two keys is taken. */
  predicate Taken(t: Table, o: Observation) {
    || o.id in t
    || (exists id :: id in t && o.sourceId.Some? && t[id].sourceId == o.sourceId && t[id].app == o.app && t[id].scope == o.scope)
    || (exists id :: id in t && o.idempotency.Some? && t[id].idempotency == o.idempotency)
  }

  lemma InsertIs(t: Table, o: Observation)
    ensures Insert(t, o) == if Taken(t, o) then t
      else t[o.id := Row(if o.status == RawAccepted then Accepted else Quarantined, o.scope, o.app, o.sourceId, o.idempotency)]
  {
  }

  lemma BornIs(t: Table, o: Observation, id: Id)
    requires id !in t
    ensures id in Apply(t, o) <==> id == o.id && !Taken(t, o)
    ensures id in Apply(t, o) ==>
      Apply(t, o)[id] == Row(Next(if o.status == RawAccepted then Accepted else Quarantined, o, id, o.scope), o.scope, o.app, o.sourceId, o.idempotency)
  {
    hide Effect, Next, Taken, Clashes;
    InsertIs(t, o);
    if id == o.id && !Taken(t, o) { EffectIs(id, Insert(t, o)[id], o); }
  }

  /** The record that made the row: the first of its id that no key kept out. */
  predicate BornAt(log: seq<Observation>, id: Id, k: nat) {
    k < |log| && log[k].id == id && id !in Replay(map[], log[..k]) && !Taken(Replay(map[], log[..k]), log[k])
  }

  /** Raw status, then every event from its own record on. */
  function Story(log: seq<Observation>, k: nat): Status
    requires k < |log|
  {
    History(if log[k].status == RawAccepted then Accepted else Quarantined, log[k].id, log[k].scope, log[k..])
  }

  lemma {:induction false} HistoryConcat(s: Status, id: Id, scope: string, a: seq<Observation>, b: seq<Observation>)
    ensures History(s, id, scope, a + b) == History(History(s, id, scope, a), id, scope, b)
  {
    hide Next;
    if b == [] {
      assert a + b == a;
    } else {
      assert (a + b)[..|a + b| - 1] == a + b[..|b| - 1];
      HistoryConcat(s, id, scope, a, b[..|b| - 1]);
    }
  }

  lemma {:induction false} BornSomewhere(log: seq<Observation>, id: Id) returns (k: nat)
    requires id in Replay(map[], log)
    ensures BornAt(log, id, k)
  {
    hide Apply, Taken;
    var n := |log| - 1;
    if id in Replay(map[], log[..n]) {
      k := BornSomewhere(log[..n], id);
      assert log[..n][..k] == log[..k];
    } else {
      BornIs(Replay(map[], log[..n]), log[n], id);
      k := n;
    }
  }

  /** Every row of a replayed log has exactly the status of its story. */
  lemma StatusIsStory(log: seq<Observation>, id: Id, k: nat)
    requires BornAt(log, id, k)
    ensures id in Replay(map[], log) && Replay(map[], log)[id].status == Story(log, k) && Replay(map[], log)[id].scope == log[k].scope
  {
    hide Apply, Next, Taken;
    var before, raw := Replay(map[], log[..k]), if log[k].status == RawAccepted then Accepted else Quarantined;
    BornIs(before, log[k], id);
    StatusIndex.ReplayStep(log, k);
    assert log == log[..k + 1] + log[k + 1..];
    ReplayConcat(map[], log[..k + 1], log[k + 1..]);
    RowHistory(Apply(before, log[k]), log[k + 1..], id);
    assert log[k..] == [log[k]] + log[k + 1..];
    HistoryConcat(raw, id, log[k].scope, [log[k]], log[k + 1..]);
    OneEvent(raw, id, log[k].scope, log[k]);
  }

  lemma OneEvent(s: Status, id: Id, scope: string, e: Observation)
    ensures History(s, id, scope, [e]) == Next(s, e, id, scope)
  {
    assert [e][..0] == [];
  }

  // ---- The first effective event decides ---------------------------------------------------------------

  predicate NoErasure(log: seq<Observation>, n: nat, scope: string)
    requires n <= |log|
  {
    forall i :: 0 <= i < n ==> !Erasing(log[i], scope)
  }

  /** Nothing in this stretch retires an accepted row. */
  predicate Calm(log: seq<Observation>, from: nat, to: nat, id: Id, scope: string)
    requires from <= to <= |log|
  {
    forall i :: from <= i < to ==> !Retiring(log[i], id, scope)
  }

  /** Nothing up to here settles a quarantined row. */
  predicate Open(log: seq<Observation>, n: nat, id: Id, scope: string)
    requires n <= |log|
  {
    forall i :: 0 <= i < n ==> !Settling(log[i], id, scope)
  }

  lemma {:induction false} ErasedIff(s: Status, id: Id, scope: string, log: seq<Observation>)
    ensures History(s, id, scope, log) == Erased <==> s == Erased || exists j :: 0 <= j < |log| && Erasing(log[j], scope)
  {
    hide Retiring, Settling, Erasing;
    if log != [] {
      var n := |log| - 1;
      ErasedIff(s, id, scope, log[..n]);
      if j :| 0 <= j < |log| && Erasing(log[j], scope) { if j < n { assert Erasing(log[..n][j], scope); } }
      if j :| 0 <= j < n && Erasing(log[..n][j], scope) { assert Erasing(log[j], scope); }
    }
  }

  /** A terminal status stays, short of an erasure. */
  lemma {:induction false} TerminalStays(s: Status, id: Id, scope: string, log: seq<Observation>)
    requires s != Accepted && s != Quarantined && NoErasure(log, |log|, scope)
    ensures History(s, id, scope, log) == s
  {
    hide Retiring, Settling, Erasing;
    if log != [] {
      var n := |log| - 1;
      assert forall i :: 0 <= i < n ==> log[..n][i] == log[i];
      TerminalStays(s, id, scope, log[..n]);
    }
  }

  lemma {:induction false} CalmStays(s: Status, id: Id, scope: string, log: seq<Observation>)
    requires NoErasure(log, |log|, scope)
    requires (s == Accepted && Calm(log, 0, |log|, id, scope)) || (s == Quarantined && Open(log, |log|, id, scope))
    ensures History(s, id, scope, log) == s
  {
    hide Retiring, Settling, Erasing;
    if log != [] {
      var n := |log| - 1;
      assert forall i :: 0 <= i < n ==> log[..n][i] == log[i];
      CalmStays(s, id, scope, log[..n]);
    }
  }

  /** Cutting a history at the event that moves it. */
  lemma CutAt(s: Status, id: Id, scope: string, log: seq<Observation>, j: nat)
    requires j < |log| && NoErasure(log, |log|, scope)
    requires (s == Accepted && Calm(log, 0, j, id, scope)) || (s == Quarantined && Open(log, j, id, scope))
    ensures History(s, id, scope, log) == History(Next(s, log[j], id, scope), id, scope, log[j + 1..])
    ensures NoErasure(log[j + 1..], |log[j + 1..]|, scope)
  {
    hide Next, Retiring, Settling, Erasing;
    var before := log[..j];
    assert forall i :: 0 <= i < j ==> before[i] == log[i];
    CalmStays(s, id, scope, before);
    assert log == before + [log[j]] + log[j + 1..];
    HistoryConcat(s, id, scope, before + [log[j]], log[j + 1..]);
    HistoryConcat(s, id, scope, before, [log[j]]);
    OneEvent(s, id, scope, log[j]);
    var rest := log[j + 1..];
    forall i | 0 <= i < |rest| ensures !Erasing(rest[i], scope) { assert rest[i] == log[j + 1 + i]; }
  }

  /** From accepted, and no erasure: it stays while nothing retires it, and the first that does decides. */
  lemma FromAccepted(id: Id, scope: string, log: seq<Observation>)
    requires NoErasure(log, |log|, scope)
    ensures var f := History(Accepted, id, scope, log);
      && (f == Accepted <==> Calm(log, 0, |log|, id, scope))
      && (f == Redacted <==> exists j :: 0 <= j < |log| && Calm(log, 0, j, id, scope) && Redacting(log[j], id))
      && (f == Tombstoned <==> exists j :: 0 <= j < |log| && Calm(log, 0, j, id, scope) && (Tombing(log[j], id) || Closing(log[j], scope)))
      && f != Rejected && f != Quarantined && f != Erased
  {
    hide History, Redacting, Tombing, Closing;
    ErasedIff(Accepted, id, scope, log);
    if Calm(log, 0, |log|, id, scope) {
      CalmStays(Accepted, id, scope, log);
    } else {
      var j := FirstRetiring(log, id, scope);
      CutAt(Accepted, id, scope, log, j);
      TerminalStays(Next(Accepted, log[j], id, scope), id, scope, log[j + 1..]);
      OnlyOne(log[j], id, scope);
      forall i | 0 <= i < |log| && Calm(log, 0, i, id, scope) && Retiring(log[i], id, scope) ensures i == j { }
    }
  }

  /** One event is about an observation or about a scope, and of one kind. */
  lemma OnlyOne(e: Observation, id: Id, scope: string)
    ensures !(Redacting(e, id) && (Tombing(e, id) || Closing(e, scope)))
    ensures !(Approving(e, id) && (Rejecting(e, id) || Tombing(e, id) || Closing(e, scope)))
    ensures !(Rejecting(e, id) && (Tombing(e, id) || Closing(e, scope)))
  {
  }

  lemma FirstRetiring(log: seq<Observation>, id: Id, scope: string) returns (j: nat)
    requires !Calm(log, 0, |log|, id, scope)
    ensures j < |log| && Retiring(log[j], id, scope) && Calm(log, 0, j, id, scope)
  {
    hide Retiring;
    j := 0;
    while !Retiring(log[j], id, scope)
      invariant j < |log| && Calm(log, 0, j, id, scope)
      invariant exists i :: j <= i < |log| && Retiring(log[i], id, scope)
      decreases |log| - j
    {
      j := j + 1;
    }
  }

  lemma FirstSettling(log: seq<Observation>, id: Id, scope: string) returns (j: nat)
    requires !Open(log, |log|, id, scope)
    ensures j < |log| && Settling(log[j], id, scope) && Open(log, j, id, scope)
  {
    hide Settling;
    j := 0;
    while !Settling(log[j], id, scope)
      invariant j < |log| && Open(log, j, id, scope)
      invariant exists i :: j <= i < |log| && Settling(log[i], id, scope)
      decreases |log| - j
    {
      j := j + 1;
    }
  }

  /** From quarantined, and no erasure: it stays while nothing settles it, and the first that does
      decides; approved, it goes on as an accepted row from there. */
  lemma FromQuarantined(id: Id, scope: string, log: seq<Observation>)
    requires NoErasure(log, |log|, scope)
    ensures var f := History(Quarantined, id, scope, log);
      && (f == Quarantined <==> Open(log, |log|, id, scope))
      && (f == Rejected <==> exists j :: 0 <= j < |log| && Open(log, j, id, scope) && Rejecting(log[j], id))
      && (forall j :: 0 <= j < |log| && Open(log, j, id, scope) && (Tombing(log[j], id) || Closing(log[j], scope)) ==> f == Tombstoned)
      && (forall j :: 0 <= j < |log| && Open(log, j, id, scope) && Approving(log[j], id) ==> f == History(Accepted, id, scope, log[j + 1..]))
      && (f == Accepted || f == Redacted ==> exists j :: 0 <= j < |log| && Open(log, j, id, scope) && Approving(log[j], id))
      && f != Erased
  {
    hide History, Rejecting, Tombing, Closing, Approving, Redacting;
    ErasedIff(Quarantined, id, scope, log);
    if Open(log, |log|, id, scope) {
      CalmStays(Quarantined, id, scope, log);
    } else {
      var j := FirstSettling(log, id, scope);
      CutAt(Quarantined, id, scope, log, j);
      OnlyOne(log[j], id, scope);
      forall i | 0 <= i < |log| && Open(log, i, id, scope) && Settling(log[i], id, scope) ensures i == j { }
      if Approving(log[j], id) {
        FromAccepted(id, scope, log[j + 1..]);
      } else {
        TerminalStays(Next(Quarantined, log[j], id, scope), id, scope, log[j + 1..]);
      }
    }
  }

  // ---- Over whole logs ------------------------------------------------------------------------------------

  lemma StaysTerminalOrErased(s: Status, id: Id, scope: string, log: seq<Observation>)
    requires s != Accepted && s != Quarantined
    ensures History(s, id, scope, log) == s || History(s, id, scope, log) == Erased
  {
    if NoErasure(log, |log|, scope) { TerminalStays(s, id, scope, log); } else { ErasedIff(s, id, scope, log); }
  }

  /** What every status of a row in a rebuilt index goes back to, record and events. */
  lemma StatusGoesBackTo(log: seq<Observation>, id: Id)
    requires id in Replay(map[], log)
    ensures var row := Replay(map[], log)[id];
      && (row.status == Accepted ==>
            || (exists k :: 0 <= k < |log| && log[k].id == id && log[k].status == RawAccepted)
            || (exists j :: 0 <= j < |log| && Approving(log[j], id)))
      && (row.status == Quarantined ==> exists k :: 0 <= k < |log| && log[k].id == id && log[k].status == RawQuarantined)
      && (row.status == Rejected ==> exists j :: 0 <= j < |log| && Rejecting(log[j], id))
      && (row.status == Redacted ==> exists j :: 0 <= j < |log| && Redacting(log[j], id))
      && (row.status == Tombstoned ==> exists j :: 0 <= j < |log| && (Tombing(log[j], id) || Closing(log[j], row.scope)))
      && (row.status == Erased <==> exists j, k :: 0 <= k <= j < |log| && BornAt(log, id, k) && Erasing(log[j], row.scope))
  {
    hide History, Approving, Rejecting, Redacting, Tombing, Closing, Erasing, Replay, BornAt;
    var k := BornSomewhere(log, id);
    StatusIsStory(log, id, k);
    BornFacts(log, id, k);
    var tail := log[k..];
    var scope := log[k].scope;
    assert forall i :: 0 <= i < |tail| ==> tail[i] == log[k + i];
    var raw := if log[k].status == RawAccepted then Accepted else Quarantined;
    ErasedIff(raw, id, scope, tail);
    if NoErasure(tail, |tail|, scope) {
      FromAccepted(id, scope, tail);
      FromQuarantined(id, scope, tail);
      QuarantinedGoesBack(id, scope, tail);
    } else {
      var j :| 0 <= j < |tail| && Erasing(tail[j], scope);
      assert Erasing(log[k + j], scope);
    }
    forall j, m | 0 <= m <= j < |log| && BornAt(log, id, m) && Erasing(log[j], scope) ensures exists i :: 0 <= i < |tail| && Erasing(tail[i], scope) {
      BornOnce(log, id, k, m);
      assert tail[j - k] == log[j];
    }
  }

  lemma BornFacts(log: seq<Observation>, id: Id, k: nat)
    requires BornAt(log, id, k)
    ensures k < |log| && log[k].id == id
  {
  }

  lemma BornOnce(log: seq<Observation>, id: Id, k: nat, m: nat)
    requires BornAt(log, id, k) && BornAt(log, id, m)
    ensures k == m
  {
    hide Taken, Replay;
    if k < m { AliveAfter(log, id, k, m); }
    if m < k { AliveAfter(log, id, m, k); }
  }

  lemma AliveAfter(log: seq<Observation>, id: Id, k: nat, m: nat)
    requires BornAt(log, id, k) && k < m < |log|
    ensures id in Replay(map[], log[..m])
  {
    hide Taken, Replay, History;
    assert log[..m][..k] == log[..k] && log[..m][k] == log[k];
    StatusIsStory(log[..m], id, k);
  }

  /** A quarantined row that ends redacted or tombstoned met such an event, before or after approval. */
  lemma QuarantinedGoesBack(id: Id, scope: string, log: seq<Observation>)
    requires NoErasure(log, |log|, scope)
    ensures var f := History(Quarantined, id, scope, log);
      && (f == Redacted ==> exists j :: 0 <= j < |log| && Redacting(log[j], id))
      && (f == Tombstoned ==> exists j :: 0 <= j < |log| && (Tombing(log[j], id) || Closing(log[j], scope)))
  {
    hide History, Rejecting, Tombing, Closing, Approving, Redacting;
    FromQuarantined(id, scope, log);
    if !Open(log, |log|, id, scope) {
      var j := FirstSettling(log, id, scope);
      if Approving(log[j], id) {
        var rest := log[j + 1..];
        forall i | 0 <= i < |rest| ensures rest[i] == log[j + 1 + i] && !Erasing(rest[i], scope) { }
        FromAccepted(id, scope, rest);
      }
    }
  }
}

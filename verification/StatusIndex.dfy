/** The derived Layer 0 status index: a table replayed from the evidence log, live, from
    scratch or from a checkpoint. */
module StatusIndex {
  import opened Evidence

  datatype Status = Accepted | Quarantined | Tombstoned | Redacted | Rejected | Erased

  datatype Row = Row(status: Status, scope: string, app: string, sourceId: Option<string>, idempotency: Option<(Id, string)>)

  type Table = map<Id, Row>

  predicate Terminal(s: Status) { s in {Tombstoned, Redacted, Rejected, Erased} }

  /** The transition matrix; an event type or action it does not list changes nothing. */
  function Transition(s: Status, e: Observation): Option<Status> {
    match s
    case Accepted =>
      if e.kind == Tombstone then Some(Tombstoned)
      else if e.kind == Redaction then Some(Redacted)
      else None
    case Quarantined =>
      if e.kind == QuarantineReview && e.body.action == Some("approve") then Some(Accepted)
      else if e.kind == QuarantineReview && e.body.action == Some("reject") then Some(Rejected)
      else if e.kind == Tombstone then Some(Tombstoned)
      else None
    case _ => None
  }

  predicate Mutates(o: Observation) { o.kind in {Tombstone, Redaction, QuarantineReview, Erasure} }

  function RawToStatus(s: RawStatus): Status { if s.RawAccepted? then Accepted else Quarantined }

  function RowOf(o: Observation): Row {
    Row(RawToStatus(o.status), o.scope, o.app, o.sourceId, o.idempotency)
  }

  /** The two unique indexes beside the primary key. */
  predicate Clashes(r: Row, o: Observation) {
    || (o.sourceId.Some? && r.app == o.app && r.sourceId == o.sourceId && r.scope == o.scope)
    || (o.idempotency.Some? && r.idempotency == o.idempotency)
  }

  /** `INSERT OR IGNORE`. */
  function Insert(t: Table, o: Observation): Table {
    if o.id in t || (exists id :: id in t && Clashes(t[id], o)) then t else t[o.id := RowOf(o)]
  }

  // ---- Mutation events -------------------------------------------------------------------

  predicate IsScopeEvent(e: Observation) { e.body.targetKind == Some("scope") || e.body.scope.Some? }

  /** What a scope-level event writes over one status, if anything. */
  function ScopeEffect(s: Status, e: Observation): Status {
    if e.kind == Erasure && e.body.reason != Some("offboarding") then Erased
    else if e.kind in {Erasure, Tombstone, Redaction} && s in {Accepted, Quarantined} then Tombstoned
    else s
  }

  /** What an event does to the status of the row `id`. */
  function Effect(id: Id, r: Row, e: Observation): Status {
    if IsScopeEvent(e) then
      if e.body.scope.Some? && e.body.scope.value != "" && e.body.scope.value == r.scope then ScopeEffect(r.status, e) else r.status
    else if e.body.targetId == Some(id) && id != "" && (e.body.targetKind == None || e.body.targetKind == Some("observation")) then
      var next := Transition(r.status, e);
      if Terminal(r.status) || next.None? then r.status else next.value
    else r.status
  }

  /** `applyMutationEvent` on the whole table. */
  function Mutate(t: Table, e: Observation): Table {
    map id | id in t :: t[id].(status := Effect(id, t[id], e))
  }

  /** One log record: insert it, then apply it if it is a mutation event. */
  function Apply(t: Table, o: Observation): Table {
    if Mutates(o) then Mutate(Insert(t, o), o) else Insert(t, o)
  }

  function Replay(t: Table, log: seq<Observation>): Table {
    if log == [] then t else Apply(Replay(t, log[..|log| - 1]), log[|log| - 1])
  }

  // ---- The index object --------------------------------------------------------------------

  class Layer0Index {
    var table: Table
    var checkpoint: Option<int>      // replay_state.last_sequence

    constructor ()
      ensures table == map[] && checkpoint == None
    {
      table, checkpoint := map[], None;
    }

    method InsertOrSkip(o: Observation)
      modifies this`table
      ensures table == Insert(old(table), o)
    {
      var taken := exists id :: id in table && Clashes(table[id], o);
      if o.id !in table && !taken {
        table := table[o.id := RowOf(o)];
      }
    }

    /** The source's branches, one UPDATE statement each. */
    method ApplyMutationEvent(e: Observation)
      modifies this`table
      ensures Mutates(e) ==> table == Mutate(old(table), e)
    {
      var targetKind := if e.body.targetKind.Some? then e.body.targetKind.value else "observation";
      if targetKind == "scope" || e.body.scope.Some? {
        if e.body.scope.None? || e.body.scope.value == "" {
          assert Mutate(table, e) == table;
          return;
        }
        var scope := e.body.scope.value;
        if e.kind == Erasure {
          if e.body.reason == Some("offboarding") {
            table := map id | id in table :: if table[id].scope == scope && table[id].status in {Accepted, Quarantined}
                                             then table[id].(status := Tombstoned) else table[id];
          } else {
            table := map id | id in table :: if table[id].scope == scope && table[id].status != Erased
                                             then table[id].(status := Erased) else table[id];
          }
        } else if e.kind == Tombstone || e.kind == Redaction {
          table := map id | id in table :: if table[id].scope == scope && table[id].status in {Accepted, Quarantined}
                                           then table[id].(status := Tombstoned) else table[id];
        }
        return;
      }
      if e.body.targetId.None? || e.body.targetId.value == "" || targetKind != "observation" {
        assert Mutate(table, e) == table;
        return;
      }
      var targetId := e.body.targetId.value;
      if targetId !in table {
        assert Mutate(table, e) == table;
        return;
      }
      var current := table[targetId].status;
      if Terminal(current) {
        assert Mutate(table, e) == table;
        return;
      }
      var next := Transition(current, e);
      if next.Some? {
        table := table[targetId := table[targetId].(status := next.value)];
      }
    }

    method Observe(o: Observation)
      modifies this`table
      ensures table == Apply(old(table), o)
    {
      InsertOrSkip(o);
      if Mutates(o) {
        ApplyMutationEvent(o);
      }
    }

    /** `rebuildIndex`: wipe, replay everything, remember the last record's sequence. */
    method RebuildIndex(log: seq<Observation>)
      modifies this
      ensures table == Replay(map[], log)
      ensures checkpoint == Some(if log == [] then 0 else log[|log| - 1].integrity.sequence)
    {
      table, checkpoint := map[], None;
      var lastSeq := 0;
      for k := 0 to |log|
        invariant table == Replay(map[], log[..k])
        invariant lastSeq == if k == 0 then 0 else log[k - 1].integrity.sequence
      {
        Observe(log[k]);
        lastSeq := log[k].integrity.sequence;
        assert log[..k + 1][..k] == log[..k];
      }
      assert log[..|log|] == log;
      checkpoint := Some(lastSeq);
    }

    /** `catchUp`: replay what lies behind the checkpoint. */
    method CatchUp(log: seq<Observation>)
      modifies this
      ensures table == Replay(old(table), Since(log, Mark(old(checkpoint))))
      ensures Mark(checkpoint) == MaxSequence(Mark(old(checkpoint)), log)
    {
      hide Apply, Mark;
      var lastSeq := Mark(checkpoint);
      var newLastSeq := lastSeq;
      ghost var before := table;
      for k := 0 to |log|
        invariant table == Replay(before, Since(log[..k], lastSeq))
        invariant newLastSeq == MaxSequence(lastSeq, log[..k])
        invariant checkpoint == old(checkpoint)
      {
        assert log[..k + 1][..k] == log[..k];
        var o := log[k];
        if o.integrity.sequence > lastSeq {
          ghost var done := Since(log[..k], lastSeq);
          Observe(o);
          newLastSeq := if o.integrity.sequence > newLastSeq then o.integrity.sequence else newLastSeq;
          assert (done + [o])[..|done|] == done;
        }
      }
      assert log[..|log|] == log;
      MarkOf(newLastSeq);
      if newLastSeq > lastSeq {
        checkpoint := Some(newLastSeq);
      }
    }
  }

  function Mark(checkpoint: Option<int>): int { if checkpoint.Some? then checkpoint.value else 0 }

  lemma MarkOf(n: int)
    ensures Mark(Some(n)) == n
  {
  }

  function Since(log: seq<Observation>, mark: int): seq<Observation> {
    if log == [] then []
    else
      var rest := Since(log[..|log| - 1], mark);
      if log[|log| - 1].integrity.sequence > mark then rest + [log[|log| - 1]] else rest
  }

  function MaxSequence(mark: int, log: seq<Observation>): (m: int)
    ensures m >= mark
  {
    if log == [] then mark
    else
      var rest := MaxSequence(mark, log[..|log| - 1]);
      if log[|log| - 1].integrity.sequence > rest then log[|log| - 1].integrity.sequence else rest
  }

  // ---- Statuses only move one way ------------------------------------------------------------

  function Rank(s: Status): nat {
    match s
    case Quarantined => 0
    case Accepted => 1
    case Erased => 3
    case _ => 2
  }

  /** Rows stay, keep everything but their status, and the status only climbs. */
  ghost predicate Climbs(t: Table, u: Table) {
    forall id :: id in t ==>
      && id in u
      && u[id].(status := t[id].status) == t[id]
      && Rank(t[id].status) <= Rank(u[id].status)
      && (Rank(t[id].status) == Rank(u[id].status) ==> t[id] == u[id])
  }

  lemma EffectClimbs(id: Id, r: Row, e: Observation)
    ensures Rank(r.status) <= Rank(Effect(id, r, e))
    ensures Rank(r.status) == Rank(Effect(id, r, e)) ==> Effect(id, r, e) == r.status
  {
  }

  lemma MutateClimbs(t: Table, e: Observation)
    ensures Climbs(t, Mutate(t, e))
  {
    hide Effect, Rank;
    forall id | id in t
      ensures Rank(t[id].status) <= Rank(Effect(id, t[id], e))
      ensures Rank(t[id].status) == Rank(Effect(id, t[id], e)) ==> Effect(id, t[id], e) == t[id].status
    {
      EffectClimbs(id, t[id], e);
    }
  }

  lemma ApplyClimbs(t: Table, o: Observation)
    ensures Climbs(t, Apply(t, o))
    ensures forall id :: id in Apply(t, o) && id !in t ==> id == o.id && Apply(t, o)[id].scope == o.scope
  {
    hide Effect, Rank, Clashes;
    MutateClimbs(Insert(t, o), o);
  }

  lemma {:induction false} ReplayClimbs(t: Table, log: seq<Observation>)
    ensures Climbs(t, Replay(t, log))
    ensures forall id :: id in Replay(t, log) && id !in t ==> exists k :: 0 <= k < |log| && log[k].id == id && log[k].scope == Replay(t, log)[id].scope
  {
    if log != [] {
      var n := |log| - 1;
      ReplayClimbs(t, log[..n]);
      ApplyClimbs(Replay(t, log[..n]), log[n]);
      assert forall k :: 0 <= k < n ==> log[..n][k] == log[k];
    }
  }

  lemma {:induction false} ReplayConcat(t: Table, a: seq<Observation>, b: seq<Observation>)
    ensures Replay(t, a + b) == Replay(Replay(t, a), b)
  {
    if b == [] {
      assert a + b == a;
    } else {
      assert (a + b)[..|a + b| - 1] == a + b[..|b| - 1];
      ReplayConcat(t, a, b[..|b| - 1]);
    }
  }

  /** Over any continuation of the log, a terminal status is only ever left for `erased`, and
      `erased` is never left. */
  lemma TerminalLeftOnlyForErased(t: Table, log: seq<Observation>, id: Id)
    requires id in t && Terminal(t[id].status)
    ensures id in Replay(t, log)
    ensures Replay(t, log)[id].status == t[id].status || Replay(t, log)[id].status == Erased
    ensures t[id].status == Erased ==> Replay(t, log)[id].status == Erased
  {
    ReplayClimbs(t, log);
  }

  // ---- Re-applying --------------------------------------------------------------------------

  /** Re-inserting any record of the log is a no-op: its row, or the row that shadowed it, is there. */
  predicate Present(t: Table, o: Observation) { o.id in t || exists id :: id in t && Clashes(t[id], o) }

  /** The event would still change this table. */
  predicate Touches(t: Table, e: Observation) {
    Mutates(e) && exists id :: id in t && Effect(id, t[id], e) != t[id].status
  }

  lemma PresentApply(t: Table, o: Observation)
    requires Present(t, o)
    ensures Insert(t, o) == t
    ensures Apply(t, o) == t <==> !Touches(t, o)
  {
    if Mutates(o) && !Touches(t, o) {
      assert Mutate(t, o) == t;
    }
    if Touches(t, o) {
      var id :| id in t && Effect(id, t[id], o) != t[id].status;
      assert Mutate(t, o)[id] != t[id];
    }
  }

  lemma PresentStays(t: Table, u: Table, o: Observation)
    requires Climbs(t, u) && Present(t, o)
    ensures Present(u, o)
  {
    if o.id !in t {
      var id :| id in t && Clashes(t[id], o);
      assert id in u && Clashes(u[id], o);
    }
  }

  lemma {:induction false} LoggedIsPresent(log: seq<Observation>, k: nat)
    requires k < |log|
    ensures Present(Replay(map[], log), log[k])
  {
    var n := |log| - 1;
    var before := Replay(map[], log[..n]);
    ApplyClimbs(before, log[n]);
    if k < n {
      LoggedIsPresent(log[..n], k);
      PresentStays(before, Replay(map[], log), log[k]);
    } else {
      InsertedIsPresent(before, log[n]);
    }
  }

  lemma InsertedIsPresent(t: Table, o: Observation)
    ensures Present(Apply(t, o), o)
  {
    if Present(t, o) {
      ApplyClimbs(t, o);
      PresentStays(t, Apply(t, o), o);
    }
  }

  /** Replaying logged records over a table that holds them changes nothing exactly when no
      event among them still touches it: a first effective event can never be undone. */
  lemma {:induction false} IdleReplay(t: Table, events: seq<Observation>)
    requires forall k :: 0 <= k < |events| ==> Present(t, events[k])
    ensures Replay(t, events) == t <==> forall k :: 0 <= k < |events| ==> !Touches(t, events[k])
  {
    hide Touches, Present, Apply, Climbs;
    if events != [] {
      var n := |events| - 1;
      IdleReplay(t, events[..n]);
      ReplayClimbs(t, events[..n]);
      var mid := Replay(t, events[..n]);
      if mid == t {
        PresentApply(t, events[n]);
        forall k | 0 <= k < n ensures !Touches(t, events[k]) { assert events[..n][k] == events[k]; }
      } else {
        ApplyClimbs(mid, events[n]);
        assert Replay(t, events) != t by {
          if Replay(t, events) == t { ClimbBack(t, mid); }
        }
        var k :| 0 <= k < n && Touches(t, events[..n][k]);
        assert Touches(t, events[k]);
      }
    }
  }

  lemma ClimbBack(t: Table, u: Table)
    requires Climbs(t, u) && Climbs(u, t)
    ensures t == u
  {
    assert t.Keys == u.Keys;
  }

  /** Catch-up over a fully populated index equals a rebuild if and only if no replayed event
      still touches the table it starts from. */
  lemma CatchUpEqualsRebuildIff(log: seq<Observation>, k: nat)
    requires k <= |log|
    ensures var live := Replay(map[], log);
      Replay(live, log[k..]) == Replay(map[], log) <==> forall j :: k <= j < |log| ==> !Touches(live, log[j])
  {
    hide Touches, Replay, Present;
    var live := Replay(map[], log);
    forall j | 0 <= j < |log| - k ensures Present(live, log[k..][j]) {
      LoggedIsPresent(log, k + j);
    }
    IdleReplay(live, log[k..]);
    if forall j :: 0 <= j < |log[k..]| ==> !Touches(live, log[k..][j]) {
      forall j | k <= j < |log| ensures !Touches(live, log[j]) { assert log[j] == log[k..][j - k]; }
    }
  }

  // ---- When it is safe -----------------------------------------------------------------------

  predicate Targets(e: Observation, id: Id) {
    && !IsScopeEvent(e) && e.body.targetId == Some(id) && id != ""
    && (e.body.targetKind == None || e.body.targetKind == Some("observation"))
  }

  /** A per-observation event that found nothing to act on: its target was not there yet, or
      it was a redaction of a quarantined observation. */
  ghost predicate LostWhenLogged(t: Table, e: Observation) {
    Mutates(e) && exists id :: Targets(e, id) && (id !in t || (t[id].status == Quarantined && e.kind == Redaction))
  }

  predicate ScopeMarker(e: Observation, scope: string) {
    IsScopeEvent(e) && e.body.scope == Some(scope) && scope != "" && e.kind in {Erasure, Tombstone, Redaction}
  }

  /** No per-observation event was lost when it was logged, and nothing entered a scope after
      a marker for that scope. */
  ghost predicate CleanLog(log: seq<Observation>) {
    && (forall j :: 0 <= j < |log| ==> !LostWhenLogged(Insert(Replay(map[], log[..j]), log[j]), log[j]))
    && (forall i, j :: 0 <= i < j < |log| && log[i].body.scope.Some? && ScopeMarker(log[i], log[i].body.scope.value)
          ==> log[j].scope != log[i].body.scope.value)
  }

  /** Right after an event was applied, its own target is beyond its reach for good. */
  lemma AppliedIsSpent(t: Table, e: Observation, u: Table)
    requires Mutates(e) && !IsScopeEvent(e) && !LostWhenLogged(t, e)
    requires Climbs(Mutate(t, e), u)
    ensures !Touches(u, e)
  {
    var m := Mutate(t, e);
    forall id | id in u ensures Effect(id, u[id], e) == u[id].status {
      if Targets(e, id) {
        assert id in m && Rank(m[id].status) <= Rank(u[id].status);
      }
    }
  }

  lemma MarkerIsSpent(t: Table, e: Observation, u: Table)
    requires Mutates(e) && IsScopeEvent(e)
    requires Climbs(Mutate(t, e), u)
    requires e.body.scope.Some? ==> forall id :: id in u && id !in t ==> u[id].scope != e.body.scope.value || !ScopeMarker(e, e.body.scope.value)
    ensures !Touches(u, e)
  {
    var m := Mutate(t, e);
    forall id | id in u ensures Effect(id, u[id], e) == u[id].status {
      if e.body.scope.Some? && ScopeMarker(e, e.body.scope.value) && u[id].scope == e.body.scope.value {
        assert id in m && m[id].scope == u[id].scope && Rank(m[id].status) <= Rank(u[id].status);
      }
    }
  }

  /** The final table has climbed from where record `j` left it, and what it gained since was
      logged after `j`. */
  lemma AfterRecord(log: seq<Observation>, j: nat)
    requires j < |log|
    ensures var before, u := Apply(Replay(map[], log[..j]), log[j]), Replay(map[], log);
      && Climbs(before, u)
      && forall id :: id in u && id !in before ==> exists k :: j < k < |log| && log[k].id == id && log[k].scope == u[id].scope
  {
    hide Apply, Climbs;
    var before, u := Apply(Replay(map[], log[..j]), log[j]), Replay(map[], log);
    ReplayStep(log, j);
    assert log == log[..j + 1] + log[j + 1..];
    ReplayConcat(map[], log[..j + 1], log[j + 1..]);
    ReplayClimbs(before, log[j + 1..]);
    forall id | id in u && id !in before ensures exists k :: j < k < |log| && log[k].id == id && log[k].scope == u[id].scope {
      var k :| 0 <= k < |log[j + 1..]| && log[j + 1..][k].id == id && log[j + 1..][k].scope == u[id].scope;
      assert log[j + 1..][k] == log[j + 1 + k];
    }
  }

  /** On a clean log no event touches the final table any more. */
  lemma CleanLogIsSpent(log: seq<Observation>, j: nat)
    requires CleanLog(log) && j < |log|
    ensures !Touches(Replay(map[], log), log[j])
  {
    hide Touches, Insert, Mutate, Climbs, LostWhenLogged, IsScopeEvent, Replay, ScopeMarker;
    var e, u := log[j], Replay(map[], log);
    var t := Insert(Replay(map[], log[..j]), e);
    if !Mutates(e) {
      Unmoved(u, e);
    } else {
      AfterRecord(log, j);
      if IsScopeEvent(e) {
        MutateKeys(t, e);
        MarkerIsSpent(t, e, u);
      } else {
        AppliedIsSpent(t, e, u);
      }
    }
  }

  lemma ReplayStep(log: seq<Observation>, j: nat)
    requires j < |log|
    ensures Replay(map[], log[..j + 1]) == Apply(Replay(map[], log[..j]), log[j])
  {
    hide Apply;
    assert log[..j + 1][..j] == log[..j];
  }

  lemma MutateKeys(t: Table, e: Observation)
    ensures Mutate(t, e).Keys == t.Keys
  {
  }

  lemma Unmoved(t: Table, e: Observation)
    requires !Mutates(e)
    ensures !Touches(t, e)
  {
  }

  lemma CleanPrefix(log: seq<Observation>, m: nat)
    requires CleanLog(log) && m <= |log|
    ensures CleanLog(log[..m])
  {
    forall j | 0 <= j < m ensures !LostWhenLogged(Insert(Replay(map[], log[..m][..j]), log[..m][j]), log[..m][j]) {
      assert log[..m][..j] == log[..j];
    }
  }

  /** On a clean log: an index populated live with the first `m` records, whose checkpoint still
      stands at record `k`, catches up to exactly what a rebuild gives. */
  lemma CatchUpEqualsRebuild(log: seq<Observation>, k: nat, m: nat)
    requires CleanLog(log) && k <= m <= |log|
    ensures Replay(Replay(map[], log[..m]), log[k..]) == Replay(map[], log)
  {
    hide Touches, Replay, CleanLog;
    var live := Replay(map[], log[..m]);
    CleanPrefix(log, m);
    forall j | k <= j < |log[..m]| ensures !Touches(live, log[..m][j]) {
      CleanLogIsSpent(log[..m], j);
    }
    CatchUpEqualsRebuildIff(log[..m], k);
    assert log[k..] == log[..m][k..] + log[m..];
    ReplayConcat(live, log[..m][k..], log[m..]);
    assert log == log[..m] + log[m..];
    ReplayConcat(map[], log[..m], log[m..]);
  }

  /** With increasing sequences the checkpoint cuts the log at one place. */
  lemma {:induction false} SinceIsSuffix(log: seq<Observation>, k: nat, mark: int)
    requires Increasing(log) && k <= |log|
    requires forall j :: 0 <= j < k ==> log[j].integrity.sequence <= mark
    requires forall j :: k <= j < |log| ==> log[j].integrity.sequence > mark
    ensures Since(log, mark) == log[k..]
  {
    if log != [] {
      var n := |log| - 1;
      if k <= n {
        SinceIsSuffix(log[..n], k, mark);
        assert log[k..] == log[..n][k..] + [log[n]];
      } else {
        SinceIsSuffix(log[..n], n, mark);
      }
    }
  }

  lemma {:induction false} MaxOfIncreasing(log: seq<Observation>, mark: int)
    requires Increasing(log) && log != [] && mark <= log[|log| - 1].integrity.sequence
    ensures MaxSequence(mark, log) == log[|log| - 1].integrity.sequence
  {
    var n := |log| - 1;
    if n > 0 {
      if mark <= log[n - 1].integrity.sequence {
        MaxOfIncreasing(log[..n], mark);
      } else {
        MaxBelow(log[..n], mark);
      }
    }
  }

  lemma {:induction false} MaxBelow(log: seq<Observation>, mark: int)
    requires forall j :: 0 <= j < |log| ==> log[j].integrity.sequence <= mark
    ensures MaxSequence(mark, log) == mark
  {
    if log != [] { MaxBelow(log[..|log| - 1], mark); }
  }

  /** The object: populate live, lag the checkpoint, catch up; the table and the checkpoint
      are those of a rebuild. */
  method CatchUpMatchesRebuild(index: Layer0Index, clean: Layer0Index, log: seq<Observation>, ghost k: nat, ghost m: nat)
    requires index != clean
    requires CleanLog(log) && Increasing(log) && k <= m <= |log|
    requires log != [] ==> log[0].integrity.sequence > 0
    requires index.table == Replay(map[], log[..m])
    requires Mark(index.checkpoint) == if k == 0 then 0 else log[k - 1].integrity.sequence
    modifies index, clean
    ensures index.table == clean.table && Mark(index.checkpoint) == Mark(clean.checkpoint)
  {
    ghost var mark := Mark(index.checkpoint);
    SinceIsSuffix(log, k, mark);
    CatchUpEqualsRebuild(log, k, m);
    if log != [] {
      MaxOfIncreasing(log, mark);
    }
    index.CatchUp(log);
    clean.RebuildIndex(log);
  }

  // ---- Where it breaks ------------------------------------------------------------------------

  /** A redaction skipped while its target is quarantined takes effect on catch-up if the target
      was approved in between: live says accepted, the caught-up index says redacted. */
  lemma SkippedRedactionResurfaces(t: Table, redaction: Observation, approval: Observation, id: Id)
    requires id in t && t[id].status == Quarantined
    requires Targets(redaction, id) && redaction.kind == Redaction && Present(t, redaction)
    requires Targets(approval, id) && approval.kind == QuarantineReview && approval.body.action == Some("approve") && Present(t, approval)
    ensures var live := Replay(t, [redaction, approval]);
      && id in live && live[id].status == Accepted
      && id in Replay(live, [redaction, approval]) && Replay(live, [redaction, approval])[id].status == Redacted
  {
    hide Replay, Present, Touches, Climbs;
    PresentApply(t, redaction);
    PresentApply(t, approval);
    var t1 := Apply(t, redaction);
    assert t1[id] == t[id];
    ApplyClimbs(t, redaction);
    PresentStays(t, t1, approval);
    PresentApply(t1, approval);
    var live := Apply(t1, approval);
    ReplayTwo(t, redaction, approval);
    assert live[id].status == Accepted;
    ApplyClimbs(t1, approval);
    PresentStays(t, t1, redaction);
    PresentStays(t1, live, redaction);
    PresentApply(live, redaction);
    var t2 := Apply(live, redaction);
    assert t2[id].status == Redacted;
    ApplyClimbs(t2, approval);
    ReplayTwo(live, redaction, approval);
  }

  lemma ReplayTwo(t: Table, a: Observation, b: Observation)
    ensures Replay(t, [a, b]) == Apply(Apply(t, a), b)
  {
    hide Apply;
    assert [a, b][..1] == [a] && [a][..0] == [];
    assert Replay(t, [a]) == Apply(t, a);
  }

  /** A record that enters a scope after the scope's erasure marker is erased by catch-up. */
  lemma LateRecordIsErased(t: Table, marker: Observation, late: Observation)
    requires marker.kind == Erasure && marker.body.scope == Some(late.scope) && late.scope != "" && marker.body.reason != Some("offboarding")
    requires Present(t, marker) && !Present(Mutate(t, marker), late) && !Mutates(late)
    ensures var live := Replay(t, [marker, late]);
      && late.id in live && live[late.id].status == RawToStatus(late.status)
      && late.id in Replay(live, [marker]) && Replay(live, [marker])[late.id].status == Erased
  {
    assert [marker, late][..1] == [marker] && [marker][..0] == [];
    PresentApply(t, marker);
    var live := Replay(t, [marker, late]);
    assert Replay(t, [marker]) == Mutate(t, marker);
    ApplyClimbs(t, marker);
    ApplyClimbs(Mutate(t, marker), late);
    PresentStays(t, Mutate(t, marker), marker);
    PresentStays(Mutate(t, marker), live, marker);
    PresentApply(live, marker);
  }
}

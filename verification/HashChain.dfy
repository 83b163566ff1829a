/** Per-writer hash chains over the evidence log. */
module HashChain {
  import opened Evidence

  predicate LinkOk(digest: Digest, s: seq<Observation>, i: nat)
    requires i < |s|
  {
    && ComputeHash(digest, s[i]) == s[i].integrity.hash
    && s[i].integrity.previous == (if i == 0 then None else Some(s[i - 1].integrity.hash))
  }

  /** What `verifyChain` promises: every hash recomputes and every link names its predecessor. */
  predicate ValidChain(digest: Digest, s: seq<Observation>) {
    forall i :: 0 <= i < |s| ==> LinkOk(digest, s, i)
  }

  /** The early-exit loop. On failure the index returned is the first broken link. */
  method VerifyChain(digest: Digest, s: seq<Observation>) returns (valid: bool, brokenAt: nat)
    ensures valid <==> ValidChain(digest, s)
    ensures !valid ==> brokenAt < |s| && !LinkOk(digest, s, brokenAt) && ValidChain(digest, s[..brokenAt])
  {
    brokenAt := 0;
    for i := 0 to |s|
      invariant forall k :: 0 <= k < i ==> LinkOk(digest, s, k)
    {
      var o := s[i];
      var linked := if i > 0 then o.integrity.previous == Some(s[i - 1].integrity.hash)
                    else o.integrity.previous == None;
      if ComputeHash(digest, o) != o.integrity.hash || !linked {
        forall k | 0 <= k < i ensures LinkOk(digest, s[..i], k) {
          assert LinkOk(digest, s, k);
        }
        assert !LinkOk(digest, s, i);
        return false, i;
      }
    }
    valid := true;
  }

  /** `assignIntegrity`: fill in the link, then hash everything but the hash. */
  function AssignIntegrity(digest: Digest, o: Observation, writer: Id, sequence: int, previous: Option<Hash>): (r: Observation)
    ensures ComputeHash(digest, r) == r.integrity.hash
    ensures r.integrity.writer == writer && r.integrity.sequence == sequence && r.integrity.previous == previous
    ensures r == o.(integrity := r.integrity)
  {
    var placed := o.(integrity := Integrity("", writer, sequence, previous));
    placed.(integrity := placed.integrity.(hash := ComputeHash(digest, placed)))
  }

  function ByWriter(log: seq<Observation>, writer: Id): seq<Observation> {
    if log == [] then []
    else
      var rest := ByWriter(log[..|log| - 1], writer);
      if log[|log| - 1].integrity.writer == writer then rest + [log[|log| - 1]] else rest
  }

  /** `SELECT MAX(sequence)`, with 0 for the empty table. */
  function LastSequence(log: seq<Observation>): (m: int)
    ensures forall i :: 0 <= i < |log| ==> log[i].integrity.sequence <= m
    ensures log != [] ==> exists i :: 0 <= i < |log| && log[i].integrity.sequence == m
  {
    if log == [] then 0
    else if |log| == 1 then log[0].integrity.sequence
    else
      var m := LastSequence(log[..|log| - 1]);
      var last := log[|log| - 1].integrity.sequence;
      assert forall i :: 0 <= i < |log| - 1 ==> log[i] == log[..|log| - 1][i];
      if m < last then last else m
  }

  /** `ORDER BY sequence DESC LIMIT 1` over one writer's rows. */
  function LatestOf(rows: seq<Observation>): (r: Observation)
    requires rows != []
    ensures r in rows
    ensures forall i :: 0 <= i < |rows| ==> rows[i].integrity.sequence <= r.integrity.sequence
  {
    if |rows| == 1 then rows[0]
    else
      var best := LatestOf(rows[..|rows| - 1]);
      assert forall i :: 0 <= i < |rows| - 1 ==> rows[i] == rows[..|rows| - 1][i];
      if rows[|rows| - 1].integrity.sequence > best.integrity.sequence then rows[|rows| - 1] else best
  }

  function LatestHashForWriter(log: seq<Observation>, writer: Id): Option<Hash> {
    var rows := ByWriter(log, writer);
    if rows == [] then None else Some(LatestOf(rows).integrity.hash)
  }

  /** One append: next sequence over the whole log, previous hash of the writer's own chain. */
  function Append(digest: Digest, log: seq<Observation>, o: Observation, writer: Id): seq<Observation> {
    log + [AssignIntegrity(digest, o, writer, LastSequence(log) + 1, LatestHashForWriter(log, writer))]
  }

  /** A run: any interleaving of writers. */
  function AppendAll(digest: Digest, steps: seq<(Id, Observation)>): seq<Observation> {
    if steps == [] then []
    else Append(digest, AppendAll(digest, steps[..|steps| - 1]), steps[|steps| - 1].1, steps[|steps| - 1].0)
  }

  lemma {:induction false} ByWriterIncreasing(log: seq<Observation>, writer: Id)
    requires Increasing(log)
    ensures Increasing(ByWriter(log, writer))
    ensures forall i :: 0 <= i < |ByWriter(log, writer)| ==> ByWriter(log, writer)[i] in log
  {
    if log != [] {
      ByWriterIncreasing(log[..|log| - 1], writer);
    }
  }

  lemma {:induction false} RunIncreasing(digest: Digest, steps: seq<(Id, Observation)>)
    ensures Increasing(AppendAll(digest, steps))
  {
    if steps != [] {
      RunIncreasing(digest, steps[..|steps| - 1]);
    }
  }

  lemma LatestOfIncreasing(rows: seq<Observation>)
    requires rows != [] && Increasing(rows)
    ensures LatestOf(rows) == rows[|rows| - 1]
  {
    var r := LatestOf(rows);
    var i :| 0 <= i < |rows| && rows[i] == r;
    assert rows[|rows| - 1].integrity.sequence <= r.integrity.sequence;
  }

  lemma ChainExtends(digest: Digest, s: seq<Observation>, o: Observation)
    requires ValidChain(digest, s)
    requires ComputeHash(digest, o) == o.integrity.hash
    requires o.integrity.previous == (if s == [] then None else Some(s[|s| - 1].integrity.hash))
    ensures ValidChain(digest, s + [o])
  {
    forall i | 0 <= i < |s + [o]| ensures LinkOk(digest, s + [o], i) {
      if i < |s| {
        assert LinkOk(digest, s, i);
      }
    }
  }

  /** Any interleaving of writers leaves every writer's own subsequence a valid chain. */
  lemma {:induction false} EveryWriterChainValid(digest: Digest, steps: seq<(Id, Observation)>, writer: Id)
    ensures ValidChain(digest, ByWriter(AppendAll(digest, steps), writer))
  {
    if steps != [] {
      var before := AppendAll(digest, steps[..|steps| - 1]);
      var after := AppendAll(digest, steps);
      EveryWriterChainValid(digest, steps[..|steps| - 1], writer);
      assert after[..|after| - 1] == before;
      if steps[|steps| - 1].0 == writer {
        var chain := ByWriter(before, writer);
        RunIncreasing(digest, steps[..|steps| - 1]);
        ByWriterIncreasing(before, writer);
        if chain != [] {
          LatestOfIncreasing(chain);
        }
        ChainExtends(digest, chain, after[|after| - 1]);
      }
    }
  }

  /** Cutting a valid chain anywhere leaves a valid chain. */
  lemma PrefixClosed(digest: Digest, s: seq<Observation>, n: nat)
    requires ValidChain(digest, s) && n <= |s|
    ensures ValidChain(digest, s[..n])
  {
    forall i | 0 <= i < n ensures LinkOk(digest, s[..n], i) {
      assert LinkOk(digest, s, i);
    }
  }

  /** With a collision-free digest the last hash commits to the whole history: two valid
      chains that end in the same hash are the same chain. */
  lemma {:induction false} LastHashDeterminesChain(digest: Digest, a: seq<Observation>, b: seq<Observation>)
    requires CollisionFree(digest)
    requires ValidChain(digest, a) && ValidChain(digest, b)
    requires a != [] && b != []
    requires a[|a| - 1].integrity.hash == b[|b| - 1].integrity.hash
    ensures a == b
  {
    var x, y := a[|a| - 1], b[|b| - 1];
    assert LinkOk(digest, a, |a| - 1) && LinkOk(digest, b, |b| - 1);
    assert Preimage(x) == Preimage(y);
    assert x == y;
    var a', b' := a[..|a| - 1], b[..|b| - 1];
    assert a == a' + [x] && b == b' + [y];
    if a' != [] {
      assert b' != [];
      PrefixClosed(digest, a, |a'|);
      PrefixClosed(digest, b, |b'|);
      LastHashDeterminesChain(digest, a', b');
    }
  }
}

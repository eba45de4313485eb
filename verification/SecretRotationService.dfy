/** The rotation as it runs: rows rewritten batch by batch, each batch in one transaction. */
module SecretRotationService {
  import opened Wrappers
  import opened SecretRotation

  class RotationStore {
    var secrets: map<Id, Secret>
    var job: Job
    var audit: seq<AuditEvent>

    function Contents(): State
      reads this
    {
      State(secrets, job, audit)
    }

    /** The transaction of one batch; a decryption that throws rolls everything back. */
    method RotateBatch(e: Env, batch: seq<Id>) returns (staged: Option<State>)
      requires batch != [] && forall id :: id in batch ==> id in secrets
      requires forall i, j :: 0 <= i < j < |batch| ==> batch[i] != batch[j]
      ensures staged.Some? <==> AllDecrypt(e.crypto, secrets, batch)
      ensures staged.Some? ==> staged.value == Committed(e, Contents(), batch)
    {
      var rows, events := secrets, audit;
      for i := 0 to |batch|
        invariant AllDecrypt(e.crypto, secrets, batch[..i])
        invariant rows == RotateAll(e, secrets, batch[..i], job.toKeyVersion)
        invariant forall id :: id in batch[..i] ==> id in secrets
        invariant events == audit + AuditOf(secrets, batch[..i], job)
      {
        var id := batch[i];
        assert id in batch && id !in batch[..i];
        assert batch[..i + 1] == batch[..i] + [id];
        var plain := Plaintext(e.crypto, secrets[id]);
        if plain.None? {
          return None;
        }
        rows := rows[id := Reencrypted(e, id, secrets[id], plain.value, job.toKeyVersion)];
        events := events + [Rotated(id, secrets[id].key, job.fromKeyVersion, job.toKeyVersion)];
      }
      assert batch[..|batch|] == batch;
      return Some(State(rows, Advanced(job, batch), events));
    }

    /** The `catch` block: the failure is recorded unless that write fails as well. */
    method Catch(e: Env, w: Weather)
      modifies this
      ensures Contents() == if IsUnrecorded(w) then old(Contents()) else Failed(e, old(Contents()))
    {
      if !IsUnrecorded(w) {
        job := job.(status := FAILED, finishedAt := Some(e.now));
      }
    }

    /** The last update of the job, and what the weather makes of it. */
    method Complete(e: Env, w: Weather) returns (outcome: Outcome)
      modifies this
      ensures (Contents(), outcome) == Settle(e, w, old(Contents()), Completed(e, old(Contents())))
    {
      if w == Crash {
        return Crashed;
      }
      if !IsLost(w) {
        job := job.(status := COMPLETED, finishedAt := Some(e.now));
      }
      if w == Fair {
        return Returned;
      } else if w == CrashAfter {
        return Crashed;
      }
      Catch(e, w);
      return Thrown;
    }

    /** One pass with secrets to rotate; it returns if the next pass may follow. */
    method Advance(e: Env, w: Weather, batch: seq<Id>) returns (outcome: Outcome)
      requires batch != [] && forall id :: id in batch ==> id in secrets
      requires forall i, j :: 0 <= i < j < |batch| ==> batch[i] != batch[j]
      modifies this
      ensures AllDecrypt(e.crypto, old(secrets), batch) ==>
                (Contents(), outcome) == Settle(e, w, old(Contents()), Committed(e, old(Contents()), batch))
      ensures !AllDecrypt(e.crypto, old(secrets), batch) ==>
                (Contents(), outcome) == Settle(e, if w == Fair then Error else w, old(Contents()), old(Contents()))
    {
      if w == Crash {
        return Crashed;
      }
      var staged := RotateBatch(e, batch);
      if staged.Some? && !IsLost(w) {
        secrets, job, audit := staged.value.secrets, staged.value.job, staged.value.audit;
      }
      if staged.Some? && w == Fair {
        return Returned;
      } else if w == CrashAfter {
        return Crashed;
      }
      Catch(e, w);
      return Thrown;
    }

    method Process(e: Env) returns (outcome: Outcome)
      modifies this
      ensures (Contents(), outcome) == Attempt(e, old(Contents()))
    {
      if job.status == COMPLETED {
        return Returned;
      }
      if e.weather(0) == Crash {
        return Crashed;
      } else if IsLost(e.weather(0)) {
        return Thrown;
      }
      job := job.(status := RUNNING, startedAt := Some(job.startedAt.GetOr(e.now)), totalSecrets := |Remaining(Contents())|);
      if e.weather(0) == CrashAfter {
        return Crashed;
      } else if e.weather(0) != Fair {
        return Thrown;
      }
      var n := 1;
      while true
        invariant n >= 1 && Attempt(e, old(Contents())) == Passes(e, Contents(), n)
        decreases |DueAfter(Contents(), job.lastProcessedSecretId)|
      {
        ghost var before := Contents();
        var batch := Batch(Contents(), job.lastProcessedSecretId);
        if batch == [] {
          outcome := Complete(e, e.weather(n));
          return outcome;
        }
        BatchIsFirst(before, before.job.lastProcessedSecretId);
        if AllDecrypt(e.crypto, secrets, batch) { NextPass(e, before, batch); }
        outcome := Advance(e, e.weather(n), batch);
        if outcome != Returned {
          return outcome;
        }
        n := n + 1;
      }
    }
  }

  lemma NextPass(e: Env, s: State, batch: seq<Id>)
    requires batch == Batch(s, s.job.lastProcessedSecretId) && batch != [] && AllDecrypt(e.crypto, s.secrets, batch)
    ensures forall id :: id in batch ==> id in s.secrets
    ensures var t := Committed(e, s, batch);
            |DueAfter(t, t.job.lastProcessedSecretId)| < |DueAfter(s, s.job.lastProcessedSecretId)|
  {
    PassShrinks(e, s, batch);
    var t := Committed(e, s, batch);
    SmallerSet(DueAfter(t, t.job.lastProcessedSecretId), DueAfter(s, s.job.lastProcessedSecretId));
  }

  /** The write throws and is not done. */
  predicate IsLost(w: Weather) {
    w == Error || w == UnrecordedError
  }

  predicate IsUnrecorded(w: Weather) {
    w == UnrecordedError || w == UnrecordedErrorAfter
  }
}

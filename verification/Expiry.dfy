/** What bounded expiry does: exactly the earliest due entries of a batch, and nothing else. */
module Expiry {
  import opened Telemetry
  import opened Broker
  import opened Transactions

  ghost function DueIn(records: Records, p: Phase, now: int): set<string> {
    set id | id in records && InPhase(records, p, id) && records[id].due <= now
  }

  function Min(a: int, b: int): int {
    if a < b then a else b
  }

  function Max(a: int, b: int): int {
    if a < b then b else a
  }

  /** `some` are the `n` earliest of `due`, or all of them. */
  ghost predicate Earliest(records: Records, some: set<string>, due: set<string>, n: nat)
    requires due <= records.Keys
  {
    && some <= due && |some| == Min(n, |due|)
    && forall i, j :: i in some && j in due - some ==> Before(KeyOf(records[i]), KeyOf(records[j]))
  }

  /** A record after its lease expired. */
  function Expired(r: Record, now: int): Record {
    r.(phase := Ready, token := "", due := now)
  }

  lemma NobodyDue(records: Records, p: Phase, now: int)
    requires DueFirst(records, p, now).None?
    ensures DueIn(records, p, now) == {}
  {
    NoneDue(records, p, now);
  }

  /** The first due record is the earliest of all that are due. */
  lemma FirstOfDue(s: State, p: Phase, now: int, id: string)
    requires Inv(s) && DueFirst(s.records, p, now) == Some(id)
    ensures id in DueIn(s.records, p, now)
    ensures forall j :: j in DueIn(s.records, p, now) && j != id ==> Before(KeyOf(s.records[id]), KeyOf(s.records[j]))
  {
  }

  /** The earliest record and the `n - 1` earliest of the others are the `n` earliest. */
  lemma EarliestPlus(before: Records, after: Records, id: string, some: set<string>,
                     due: set<string>, n: nat)
    requires n > 0 && id in due && due <= before.Keys && due - {id} <= after.Keys
    requires forall j :: j in due && j != id ==> Before(KeyOf(before[id]), KeyOf(before[j]))
    requires forall j :: j in due && j != id ==> after[j] == before[j]
    requires Earliest(after, some, due - {id}, n - 1)
    ensures Earliest(before, some + {id}, due, n)
  {
    hide Before;
    SizePlus(id, some, due, n);
    forall i, j | i in some + {id} && j in due - (some + {id}) ensures Before(KeyOf(before[i]), KeyOf(before[j])) {
      assert j in due - {id} - some;
    }
  }

  lemma SizePlus(id: string, some: set<string>, due: set<string>, n: nat)
    requires n > 0 && id in due && some <= due - {id} && |some| == Min(n - 1, |due - {id}|)
    ensures some + {id} <= due && |some + {id}| == Min(n, |due|)
  {
    assert id !in some;
    assert due == due - {id} + {id};
  }

  /** The records after the leases in `released` expired. */
  function Reset(records: Records, released: set<string>, now: int): Records {
    map id | id in records :: if id in released then Expired(records[id], now) else records[id]
  }

  lemma ResetOne(s: State, id: string, later: set<string>, now: int)
    requires Enabled(s, Release(id), now) && id !in later
    ensures Reset(Commit(s, Release(id), now).records, later, now) == Reset(s.records, later + {id}, now)
  {
  }

  lemma DueAfterRelease(s: State, id: string, now: int)
    requires Enabled(s, Release(id), now)
    ensures DueIn(Commit(s, Release(id), now).records, Leased, now) == DueIn(s.records, Leased, now) - {id}
    ensures forall j :: j in s.records && j != id ==> Commit(s, Release(id), now).records[j] == s.records[j]
  {
  }

  lemma DueAfterForget(s: State, id: string, now: int)
    requires Enabled(s, Forget(id), now)
    ensures DueIn(Commit(s, Forget(id), now).records, Completed, now) == DueIn(s.records, Completed, now) - {id}
    ensures forall j :: j in s.records && j != id ==> Commit(s, Forget(id), now).records[j] == s.records[j]
  {
  }

  /** Lease expiry releases exactly the earliest due leases, up to `n` of them. */
  lemma {:induction false} ReleaseEffect(s: State, now: int, n: nat) returns (released: set<string>)
    requires Inv(s)
    ensures Earliest(s.records, released, DueIn(s.records, Leased, now), n)
    ensures Released(s, now, n) == s.(records := Reset(s.records, released, now))
    decreases n
  {
    hide Inv, Released, Earliest;
    var due := DueIn(s.records, Leased, now);
    if n == 0 || DueFirst(s.records, Leased, now).None? {
      if n > 0 { NobodyDue(s.records, Leased, now); }
      ReleasedNone(s, now, n);
      released := {};
      NoneEarliest(s.records, due, n);
      assert Reset(s.records, {}, now) == s.records;
    } else {
      var id := DueFirst(s.records, Leased, now).value;
      var s1 := Commit(s, Release(id), now);
      InvCommit(s, Release(id), now);
      FirstOfDue(s, Leased, now, id);
      DueAfterRelease(s, id, now);
      ReleasedStep(s, now, n);
      hide Commit, Enabled, DueIn, Reset;
      var later := ReleaseEffect(s1, now, n - 1);
      released := later + {id};
      EarliestPlus(s.records, s1.records, id, later, due, n);
      Within(s1.records, later, due - {id}, n - 1);
      ResetOne(s, id, later, now);
    }
  }

  lemma NoneEarliest(records: Records, due: set<string>, n: nat)
    requires due <= records.Keys && (n == 0 || due == {})
    ensures Earliest(records, {}, due, n)
  {
  }

  lemma Within(records: Records, some: set<string>, due: set<string>, n: nat)
    requires due <= records.Keys && Earliest(records, some, due, n)
    ensures some <= due
  {
  }

  /** Completion expiry removes exactly the earliest expired completions, up to `n` of them. */
  lemma {:induction false} ForgetEffect(s: State, now: int, n: nat) returns (forgotten: set<string>)
    requires Inv(s)
    ensures Earliest(s.records, forgotten, DueIn(s.records, Completed, now), n)
    ensures Forgotten(s, now, n) == s.(records := s.records - forgotten)
    decreases n
  {
    hide Inv, Forgotten, Earliest;
    var due := DueIn(s.records, Completed, now);
    if n == 0 || DueFirst(s.records, Completed, now).None? {
      if n > 0 { NobodyDue(s.records, Completed, now); }
      ForgottenNone(s, now, n);
      forgotten := {};
      NoneEarliest(s.records, due, n);
      assert s.records - {} == s.records;
    } else {
      var id := DueFirst(s.records, Completed, now).value;
      var s1 := Commit(s, Forget(id), now);
      assert forall some: set<string> :: s1.records - some == s.records - (some + {id});
      InvCommit(s, Forget(id), now);
      FirstOfDue(s, Completed, now, id);
      DueAfterForget(s, id, now);
      ForgottenStep(s, now, n);
      assert s1 == s.(records := s1.records);
      hide Commit, Enabled, DueIn;
      var later := ForgetEffect(s1, now, n - 1);
      forgotten := later + {id};
      EarliestPlus(s.records, s1.records, id, later, due, n);
    }
  }

  /** One cleanup pass handles exactly the earliest due leases and the earliest expired
      completions, a batch of each, and leaves every other record as it was. */
  lemma CleanupEffect(s: State, now: int, o: Options)
    returns (released: set<string>, forgotten: set<string>)
    requires Inv(s) && o.Validate()
    ensures Earliest(s.records, released, DueIn(s.records, Leased, now), o.cleanupBatch)
    ensures Earliest(s.records, forgotten, DueIn(s.records, Completed, now), o.cleanupBatch)
    ensures Replay(s, Cleanup(s, now, o).journal) == s.(records := Reset(s.records, released, now) - forgotten)
  {
    var h := ReleaseDue(s, now, o.cleanupBatch);
    ReplayConcat(s, h, ForgetDue(Replay(s, h), now, o.cleanupBatch));
    ReplayInv(s, h);
    hide Inv, Earliest, ReleaseDue, ForgetDue, Lawful, Replay;
    released := ReleaseEffect(s, now, o.cleanupBatch);
    var s1 := Replay(s, h);
    forgotten := ForgetEffect(s1, now, o.cleanupBatch);
    hide Expired;
    EarliestCompletions(s, released, forgotten, now, o.cleanupBatch);
  }

  /** Releasing leases leaves the expired completions and their order alone. */
  lemma EarliestCompletions(s: State, released: set<string>, forgotten: set<string>, now: int, n: nat)
    requires released <= DueIn(s.records, Leased, now)
    requires Earliest(Reset(s.records, released, now), forgotten,
                      DueIn(Reset(s.records, released, now), Completed, now), n)
    ensures Earliest(s.records, forgotten, DueIn(s.records, Completed, now), n)
  {
    assert DueIn(Reset(s.records, released, now), Completed, now) == DueIn(s.records, Completed, now);
  }

  /** The state after `passes` cleanup passes at one instant. */
  ghost function Passes(s: State, now: int, o: Options, passes: nat): (s': State)
    requires Inv(s) && o.Validate()
    ensures Inv(s')
  {
    if passes == 0 then s
    else
      var before := Passes(s, now, o, passes - 1);
      ReplayInv(before, Cleanup(before, now, o).journal);
      Replay(before, Cleanup(before, now, o).journal)
  }

  lemma DueLeft(s: State, released: set<string>, forgotten: set<string>, now: int)
    requires released <= DueIn(s.records, Leased, now) && forgotten <= DueIn(s.records, Completed, now)
    ensures var records' := Reset(s.records, released, now) - forgotten;
            && DueIn(records', Leased, now) == DueIn(s.records, Leased, now) - released
            && DueIn(records', Completed, now) == DueIn(s.records, Completed, now) - forgotten
  {
  }

  lemma Left(some: set<string>, due: set<string>, n: nat)
    requires some <= due && |some| == Min(n, |due|)
    ensures |due - some| == Max(0, |due| - n)
  {
  }

  lemma PassCounts(s: State, now: int, o: Options)
    requires Inv(s) && o.Validate()
    ensures var s' := Replay(s, Cleanup(s, now, o).journal);
            && |DueIn(s'.records, Leased, now)| == Max(0, |DueIn(s.records, Leased, now)| - o.cleanupBatch)
            && |DueIn(s'.records, Completed, now)| == Max(0, |DueIn(s.records, Completed, now)| - o.cleanupBatch)
  {
    hide Inv, Cleanup, Replay, Lawful, DueIn, Reset;
    var released, forgotten := CleanupEffect(s, now, o);
    DueLeft(s, released, forgotten, now);
    Left(released, DueIn(s.records, Leased, now), o.cleanupBatch);
    Left(forgotten, DueIn(s.records, Completed, now), o.cleanupBatch);
  }

  /** Passes of `b` drain `n` due entries exactly: `p` of them leave max(0, n - p * b). */
  lemma {:induction false} PassesDrain(s: State, now: int, o: Options, passes: nat)
    requires Inv(s) && o.Validate()
    ensures var s' := Passes(s, now, o, passes);
            && |DueIn(s'.records, Leased, now)| == Max(0, |DueIn(s.records, Leased, now)| - passes * o.cleanupBatch)
            && |DueIn(s'.records, Completed, now)|
               == Max(0, |DueIn(s.records, Completed, now)| - passes * o.cleanupBatch)
  {
    hide Inv, Cleanup, Replay, Lawful, DueIn;
    if passes > 0 {
      PassesDrain(s, now, o, passes - 1);
      PassCounts(Passes(s, now, o, passes - 1), now, o);
      assert passes * o.cleanupBatch == (passes - 1) * o.cleanupBatch + o.cleanupBatch;
    }
  }
}

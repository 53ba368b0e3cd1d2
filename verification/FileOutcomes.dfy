/** What uploads, copies, removals and drains do to files and objects when nothing stands in their way. */
module FileOutcomes {
  import opened FileObjects
  import opened FileSafety

  /** An upload ends as a row that owns its stored object; a discarded one leaves neither. */
  lemma UploadStores(s: State, tx: Tx, id: FileId, hash: Key -> int)
    requires tx !in s.uploads && id !in s.minted && id !in s.rows && OwnedBy(id) !in s.objects
    ensures var end := Step(Step(s, Put(tx, id), hash), CommitUpload(tx), hash);
      end == s.(rows := s.rows[id := OwnedBy(id)], objects := s.objects + {OwnedBy(id)}, minted := s.minted + {id})
    ensures var end := Step(Step(s, Put(tx, id), hash), DiscardUpload(tx), hash);
      end == s.(minted := s.minted + {id})
  {
    var put := PutStep(s, tx, id);
    assert put.uploads - {tx} == s.uploads;
    assert put.objects - {OwnedBy(id)} == s.objects;
  }

  /** A mounted copy is a row of its own that names its source's object; a source being removed yields none. */
  lemma CopyNames(s: State, tx: Tx, source: FileId, copy: FileId)
    requires tx !in s.mints && source in s.rows && copy !in s.rows
    ensures var end := CommitMintStep(ShareStep(s, tx, source, copy), tx);
      if HeldByRemover(s, source) then end == s
      else end == s.(rows := s.rows[copy := s.rows[source]], minted := s.minted + {copy})
  {
    var shared := ShareStep(s, tx, source, copy);
    if !HeldByRemover(s, source) { assert shared.mints - {tx} == s.mints; }
  }

  // A remover that has deleted one row and goes on to its queue.
  function Removing(s: State, tx: Tx, id: FileId): State {
    EnqueueStep(TakeStep(s, tx, id), tx)
  }

  lemma RemovingIs(s: State, tx: Tx, id: FileId)
    requires tx !in s.removers && id in s.rows && !HeldByRemover(s, id) && !HeldByMint(s, id)
    ensures Removing(s, tx, id) == s.(removers := s.removers[tx := Remover({id}, true, {}, {}, {})])
  {
    assert ({} + {id}) == {id};
  }

  /** Deleting a row takes it, and queues its object exactly when no other row names it. */
  lemma RemovalQueues(s: State, tx: Tx, id: FileId, hash: Key -> int)
    requires tx !in s.removers && id in s.rows && !HeldByRemover(s, id) && !HeldByMint(s, id)
    requires LockFree(s, tx, hash(s.rows[id]))
    ensures var k := s.rows[id]; var r := Removing(s, tx, id);
      var alone := CommitRemoveStep(CountStep(r, tx, k), tx);
      var shared := CommitRemoveStep(CountLockedStep(LockStep(CountStep(r, tx, k), tx, k, hash), tx, k, hash), tx);
      if exists other :: other in s.rows && other != id && s.rows[other] == k
      then alone == r && shared == s.(rows := s.rows - {id})
      else alone == s.(rows := s.rows - {id}, queue := s.queue + {k})
  {
    hide Removing;
    var k := s.rows[id];
    RemovingIs(s, tx, id);
    var r := Removing(s, tx, id);
    var me := Remover({id}, true, {}, {}, {});
    assert Keyed(r, me, k) && r.removers - {tx} == s.removers;
    if other :| other in s.rows && other != id && s.rows[other] == k {
      assert Visible(r, me, k);
      LastOfTwo(s, tx, id, hash);
    } else {
      assert !Visible(r, me, k);
      var counted := CountStep(r, tx, k);
      assert {} + {k} == {k} && s.removers[tx := me][tx := me.(owed := {k})] == s.removers[tx := me.(owed := {k})];
      assert counted == s.(removers := s.removers[tx := me.(owed := {k})]);
      assert counted.removers - {tx} == s.removers;
    }
  }

  lemma LastOfTwo(s: State, tx: Tx, id: FileId, hash: Key -> int)
    requires tx !in s.removers && id in s.rows && LockFree(s, tx, hash(s.rows[id]))
    requires exists other :: other in s.rows && other != id && s.rows[other] == s.rows[id]
    ensures var k := s.rows[id]; var r := s.(removers := s.removers[tx := Remover({id}, true, {}, {}, {})]);
      && CountStep(r, tx, k) == r && CommitRemoveStep(r, tx) == r
      && CommitRemoveStep(CountLockedStep(LockStep(r, tx, k, hash), tx, k, hash), tx) == s.(rows := s.rows - {id})
  {
    var k, me := s.rows[id], Remover({id}, true, {}, {}, {});
    var r := s.(removers := s.removers[tx := me]);
    assert Keyed(r, me, k) && Visible(r, me, k);
    var locked := LockStep(r, tx, k, hash);
    var held := me.(locks := {hash(k)});
    assert LockFree(r, tx, hash(k));
    assert {} + {hash(k)} == {hash(k)} && {} + {k} == {k} && s.removers[tx := me][tx := held] == s.removers[tx := held];
    assert locked == s.(removers := s.removers[tx := held]);
    assert Keyed(locked, held, k) && Visible(locked, held, k);
    var counted := CountLockedStep(locked, tx, k, hash);
    assert s.removers[tx := held][tx := held.(skipped := {k})] == s.removers[tx := held.(skipped := {k})];
    assert counted == s.(removers := s.removers[tx := held.(skipped := {k})]);
    assert counted.removers - {tx} == s.removers;
  }

  /** A queued object is deleted and then forgotten; one not queued is never touched. */
  lemma DrainDeletes(s: State, k: Key, hash: Key -> int)
    ensures k in s.queue ==>
      Step(Step(s, DrainObject(k), hash), DrainRow(k), hash) == s.(objects := s.objects - {k}, queue := s.queue - {k})
    ensures k !in s.queue ==> Step(s, DrainObject(k), hash) == s
    ensures k in s.objects ==> Step(s, DrainRow(k), hash) == s
  {
  }
}

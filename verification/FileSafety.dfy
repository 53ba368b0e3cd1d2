/** The file rows' invariant over every interleaving of transactions. */
module FileSafety {
  import opened FileObjects

  lemma SameCounted(s: State, t: State, r: Remover, hash: Key -> int)
    requires t.rows == s.rows && CountedInv(s, r, hash)
    ensures CountedInv(t, r, hash)
  {
  }

  lemma SameRemovers(s: State, t: State, hash: Key -> int)
    requires Inv(s, hash) && t.rows == s.rows && t.removers == s.removers
    ensures LocksInv(t) && forall x :: x in t.removers ==> CountedInv(t, t.removers[x], hash)
  {
  }

  lemma SameHolds(s: State, t: State)
    requires HoldsInv(s) && t.rows == s.rows && t.removers == s.removers
    requires forall x :: x in t.mints ==> t.mints[x].source in s.rows && !HeldByRemover(s, t.mints[x].source)
    ensures HoldsInv(t)
  {
  }

  lemma SameHolder(s: State, t: State, id: FileId)
    requires t.removers == s.removers
    ensures HeldByRemover(t, id) == HeldByRemover(s, id)
  {
  }

  // ---------------------------------------------------------------- uploads

  lemma PutKeeps(s: State, tx: Tx, id: FileId, hash: Key -> int)
    requires Inv(s, hash)
    ensures Inv(PutStep(s, tx, id), hash)
  {
    hide CountedInv, HoldsInv, LocksInv;
    var t := PutStep(s, tx, id);
    SameRemovers(s, t, hash);
    SameHolds2(s, t);
    if tx !in s.uploads && id !in s.minted { PutSafe(s, tx, id); }
  }

  lemma SameHolds2(s: State, t: State)
    requires HoldsInv(s) && t.rows == s.rows && t.removers == s.removers && t.mints == s.mints
    ensures HoldsInv(t)
  {
  }

  lemma PutSafe(s: State, tx: Tx, id: FileId)
    requires Safe(s) && UploadsInv(s) && tx !in s.uploads && id !in s.minted
    ensures Safe(PutStep(s, tx, id)) && UploadsInv(PutStep(s, tx, id))
  {
    var t := PutStep(s, tx, id);
    forall k | k in t.objects ensures k in t.queue || Named(t.rows, k) || Staged(t, k) {
      if k == OwnedBy(id) {
        assert t.uploads[tx] == id;
      } else if Staged(s, k) {
        StagedStill(s, t, k);
      }
    }
  }

  lemma StagedStill(s: State, t: State, k: Key)
    requires Staged(s, k) && forall u :: u in s.uploads && OwnedBy(s.uploads[u]) == k ==> u in t.uploads && t.uploads[u] == s.uploads[u]
    ensures Staged(t, k)
  {
  }

  lemma DiscardSafe(s: State, tx: Tx)
    requires Safe(s) && UploadsInv(s)
    ensures Safe(DiscardStep(s, tx)) && UploadsInv(DiscardStep(s, tx))
  {
    var t := DiscardStep(s, tx);
    if tx in s.uploads {
      forall id | id in t.rows ensures t.rows[id] in t.objects {
        assert !Named(s.rows, OwnedBy(s.uploads[tx]));
      }
      forall k | k in t.objects ensures k in t.queue || Named(t.rows, k) || Staged(t, k) {
        if Staged(s, k) { StagedStill(s, t, k); }
      }
    }
  }

  lemma DiscardKeeps(s: State, tx: Tx, hash: Key -> int)
    requires Inv(s, hash)
    ensures Inv(DiscardStep(s, tx), hash)
  {
    hide CountedInv, HoldsInv, LocksInv, Safe, UploadsInv;
    var t := DiscardStep(s, tx);
    SameRemovers(s, t, hash);
    SameHolds2(s, t);
    DiscardSafe(s, tx);
  }

  // ---------------------------------------------------------------- a row added

  // A new row whose key no remover has owed leaves every count true.
  lemma AddedCounted(s: State, t: State, id: FileId, k: Key, r: Remover, hash: Key -> int)
    requires id !in s.rows && t.rows == s.rows[id := k] && CountedInv(s, r, hash)
    requires k !in r.owed && id !in r.deleted
    ensures CountedInv(t, r, hash)
  {
  }

  lemma AddedKeeps(s: State, t: State, id: FileId, k: Key, hash: Key -> int)
    requires Inv(s, hash) && id !in s.rows && t.rows == s.rows[id := k] && t.removers == s.removers
    requires forall x :: x in t.mints ==> x in s.mints && t.mints[x] == s.mints[x]
    requires forall x :: x in s.removers ==> k !in s.removers[x].owed
    ensures HoldsInv(t) && LocksInv(t) && forall x :: x in t.removers ==> CountedInv(t, t.removers[x], hash)
  {
    hide CountedInv;
    forall x | x in t.removers ensures CountedInv(t, t.removers[x], hash) {
      AddedCounted(s, t, id, k, s.removers[x], hash);
    }
    forall x | x in t.mints ensures t.mints[x].source in t.rows && !HeldByRemover(t, t.mints[x].source) {
      SameHolder(s, t, t.mints[x].source);
    }
  }

  // A key that names nothing yet is owed by no remover.
  lemma UnnamedNotOwed(s: State, k: Key, x: Tx, hash: Key -> int)
    requires Inv(s, hash) && !Named(s.rows, k) && x in s.removers
    ensures k !in s.removers[x].owed
  {
  }

  lemma NamedMore(rows: map<FileId, Key>, id: FileId, k: Key, j: Key)
    requires id !in rows
    ensures Named(rows[id := k], j) <==> Named(rows, j) || j == k
  {
    var more := rows[id := k];
    assert more[id] == k;
    if Named(rows, j) {
      var x :| x in rows && rows[x] == j;
      assert more[x] == j;
    }
  }

  lemma CommitUploadSafe(s: State, tx: Tx)
    requires Safe(s) && UploadsInv(s) && tx in s.uploads && s.uploads[tx] !in s.rows
    ensures Safe(CommitUploadStep(s, tx)) && UploadsInv(CommitUploadStep(s, tx))
  {
    hide Named;
    var t, id := CommitUploadStep(s, tx), s.uploads[tx];
    forall k ensures Named(t.rows, k) <==> Named(s.rows, k) || k == OwnedBy(id) { NamedMore(s.rows, id, OwnedBy(id), k); }
    forall k | k in t.objects ensures k in t.queue || Named(t.rows, k) || Staged(t, k) {
      if k != OwnedBy(id) && Staged(s, k) { StagedStill(s, t, k); }
    }
  }

  lemma CommitUploadKeeps(s: State, tx: Tx, hash: Key -> int)
    requires Inv(s, hash)
    ensures Inv(CommitUploadStep(s, tx), hash)
  {
    hide CountedInv, HoldsInv, LocksInv, Safe, Named;
    if tx in s.uploads && s.uploads[tx] !in s.rows {
      var t, id := CommitUploadStep(s, tx), s.uploads[tx];
      CommitUploadSafe(s, tx);
      forall x | x in s.removers ensures OwnedBy(id) !in s.removers[x].owed { UnnamedNotOwed(s, OwnedBy(id), x, hash); }
      AddedKeeps(s, t, id, OwnedBy(id), hash);
    }
  }

  // The source's key is owed by no remover: its row would be that remover's.
  lemma SharedNotOwed(s: State, tx: Tx, x: Tx, hash: Key -> int)
    requires Inv(s, hash) && tx in s.mints && x in s.removers
    ensures s.mints[tx].source in s.rows && s.rows[s.mints[tx].source] !in s.removers[x].owed
  {
  }

  lemma CommitMintSafe(s: State, tx: Tx)
    requires Safe(s) && UploadsInv(s) && tx in s.mints && s.mints[tx].source in s.rows && s.mints[tx].copy !in s.rows
    ensures Safe(CommitMintStep(s, tx)) && UploadsInv(CommitMintStep(s, tx))
  {
    hide Named;
    var t, m := CommitMintStep(s, tx), s.mints[tx];
    var key := s.rows[m.source];
    IsNamed(s.rows, m.source);
    forall k ensures Named(t.rows, k) <==> Named(s.rows, k) || k == key { NamedMore(s.rows, m.copy, key, k); }
    forall k | k in t.objects ensures k in t.queue || Named(t.rows, k) || Staged(t, k) {
      if Staged(s, k) { StagedStill(s, t, k); }
    }
  }

  lemma IsNamed(rows: map<FileId, Key>, id: FileId)
    requires id in rows
    ensures Named(rows, rows[id])
  {
  }

  lemma CommitMintKeeps(s: State, tx: Tx, hash: Key -> int)
    requires Inv(s, hash)
    ensures Inv(CommitMintStep(s, tx), hash)
  {
    hide CountedInv, HoldsInv, LocksInv, Safe, UploadsInv;
    if tx in s.mints && s.mints[tx].source in s.rows && s.mints[tx].copy !in s.rows {
      var t, m := CommitMintStep(s, tx), s.mints[tx];
      CommitMintSafe(s, tx);
      forall x | x in s.removers ensures s.rows[m.source] !in s.removers[x].owed { SharedNotOwed(s, tx, x, hash); }
      AddedKeeps(s, t, m.copy, s.rows[m.source], hash);
    }
  }

  lemma ShareKeeps(s: State, tx: Tx, source: FileId, copy: FileId, hash: Key -> int)
    requires Inv(s, hash)
    ensures Inv(ShareStep(s, tx, source, copy), hash)
  {
    hide CountedInv, LocksInv;
    var t := ShareStep(s, tx, source, copy);
    SameRemovers(s, t, hash);
    SameHolds(s, t);
    SameStore(s, t);
  }

  lemma AbortMintKeeps(s: State, tx: Tx, hash: Key -> int)
    requires Inv(s, hash)
    ensures Inv(s.(mints := s.mints - {tx}), hash)
  {
    hide CountedInv, LocksInv;
    var t := s.(mints := s.mints - {tx});
    SameRemovers(s, t, hash);
    SameHolds(s, t);
    SameStore(s, t);
  }

  lemma SameStore(s: State, t: State)
    requires Safe(s) && UploadsInv(s) && s.minted <= t.minted
    requires t.rows == s.rows && t.objects == s.objects && t.queue == s.queue && t.uploads == s.uploads
    ensures Safe(t) && UploadsInv(t)
  {
  }

  // ---------------------------------------------------------------- a remover's own steps

  lemma RemoverKeeps(s: State, tx: Tx, r: Remover, hash: Key -> int)
    requires Inv(s, hash) && CountedInv(s, r, hash)
    requires r.deleted == RemoverOf(s, tx).deleted
    requires forall h :: h in r.locks && h !in RemoverOf(s, tx).locks ==> LockFree(s, tx, h)
    ensures Inv(WithRemover(s, tx, r), hash)
  {
    hide CountedInv, Visible, Keyed;
    var t := WithRemover(s, tx, r);
    forall x | x in t.removers ensures CountedInv(t, t.removers[x], hash) {
      SameCounted(s, t, t.removers[x], hash);
    }
    SameStore(s, t);
    assert HoldsInv(t) by {
      forall x | x in t.mints ensures !HeldByRemover(t, t.mints[x].source) {
        assert !HeldByRemover(s, t.mints[x].source);
      }
    }
  }

  // Deleting one more row, before anything is counted.
  lemma TakeKeeps(s: State, tx: Tx, id: FileId, hash: Key -> int)
    requires Inv(s, hash)
    ensures Inv(TakeStep(s, tx, id), hash)
  {
    hide Visible, Keyed, Safe, UploadsInv;
    var t := TakeStep(s, tx, id);
    SameStore(s, t);
    if t != s {
      assert HoldsInv(t) by { TakeHolds(s, tx, id); }
      forall x | x in t.removers ensures CountedInv(t, t.removers[x], hash) {
        if x != tx { SameCounted(s, t, s.removers[x], hash); }
      }
    }
  }

  lemma TakeHolds(s: State, tx: Tx, id: FileId)
    requires HoldsInv(s) && id in s.rows && !HeldByRemover(s, id) && !HeldByMint(s, id) && !RemoverOf(s, tx).enqueuing
    ensures HoldsInv(TakeStep(s, tx, id))
  {
  }

  lemma CountKeeps(s: State, tx: Tx, k: Key, hash: Key -> int)
    requires Inv(s, hash)
    ensures Inv(EnqueueStep(s, tx), hash)
    ensures Inv(CountStep(s, tx, k), hash)
    ensures Inv(LockStep(s, tx, k, hash), hash)
    ensures Inv(CountLockedStep(s, tx, k, hash), hash)
  {
    hide Visible, Keyed, HoldsInv, LocksInv, Safe, UploadsInv;
    if tx in s.removers {
      var r := s.removers[tx];
      RemoverKeeps(s, tx, r.(enqueuing := true), hash);
      if Counts(s, tx, k) {
        if !Visible(s, r, k) {
          NewOwed(s, r, k, hash);
          RemoverKeeps(s, tx, r.(owed := r.owed + {k}), hash);
        } else if hash(k) in r.locks {
          NewSkipped(s, r, k, hash);
          RemoverKeeps(s, tx, r.(skipped := r.skipped + {k}), hash);
        }
        if LockFree(s, tx, hash(k)) {
          NewLock(s, r, hash(k), hash);
          RemoverKeeps(s, tx, r.(locks := r.locks + {hash(k)}), hash);
        }
      }
    }
  }

  lemma NewOwed(s: State, r: Remover, k: Key, hash: Key -> int)
    requires CountedInv(s, r, hash) && r.enqueuing && Keyed(s, r, k) && !Visible(s, r, k)
    ensures CountedInv(s, r.(owed := r.owed + {k}), hash)
  {
  }

  lemma NewSkipped(s: State, r: Remover, k: Key, hash: Key -> int)
    requires CountedInv(s, r, hash) && r.enqueuing && Keyed(s, r, k) && Visible(s, r, k) && hash(k) in r.locks
    ensures CountedInv(s, r.(skipped := r.skipped + {k}), hash)
  {
  }

  lemma NewLock(s: State, r: Remover, h: int, hash: Key -> int)
    requires CountedInv(s, r, hash)
    ensures CountedInv(s, r.(locks := r.locks + {h}), hash)
  {
  }

  lemma AbortRemoveKeeps(s: State, tx: Tx, hash: Key -> int)
    requires Inv(s, hash)
    ensures Inv(s.(removers := s.removers - {tx}), hash)
  {
    hide CountedInv;
    var t := s.(removers := s.removers - {tx});
    forall x | x in t.removers ensures CountedInv(t, t.removers[x], hash) { SameCounted(s, t, s.removers[x], hash); }
    SameStore(s, t);
    assert HoldsInv(t) by {
      forall x | x in t.mints ensures !HeldByRemover(t, t.mints[x].source) {
        assert !HeldByRemover(s, t.mints[x].source);
      }
    }
  }

  // ---------------------------------------------------------------- a remover commits

  // The advisory lock: two removers never both find a key still named.
  lemma SkippedByOne(s: State, x: Tx, y: Tx, k: Key, hash: Key -> int)
    requires Inv(s, hash) && x in s.removers && y in s.removers && x != y && k in s.removers[x].skipped
    ensures k !in s.removers[y].skipped
  {
    hide Safe, UploadsInv, HoldsInv, Visible, Keyed;
    assert CountedInv(s, s.removers[x], hash) && CountedInv(s, s.removers[y], hash);
    LockedByOne(s, x, y, hash(k));
  }

  lemma LockedByOne(s: State, x: Tx, y: Tx, h: int)
    requires LocksInv(s) && x in s.removers && y in s.removers && x != y && h in s.removers[x].locks
    ensures h !in s.removers[y].locks
  {
  }

  /**
   The heart of the count: while one remover waits to commit having found a key
   still named, no other can take the key's last other row away. The other
   would have had to count the key too, and would see the first one's row.
   */
  lemma SkippedStaysNamed(s: State, x: Tx, y: Tx, k: Key, hash: Key -> int)
    requires Inv(s, hash) && x in s.removers && y in s.removers && x != y
    requires k in s.removers[x].skipped && AllCounted(s, s.removers[y])
    ensures forall id :: id in s.removers[y].deleted ==> id in s.rows && s.rows[id] != k
  {
    hide Safe, UploadsInv;
    var r, q := s.removers[x], s.removers[y];
    assert CountedInv(s, r, hash) && CountedInv(s, q, hash);
    var mine :| mine in r.deleted && mine in s.rows && s.rows[mine] == k;
    assert mine !in q.deleted;
    assert Visible(s, q, k);
    forall id | id in q.deleted ensures id in s.rows && s.rows[id] != k {
      SkippedByOne(s, x, y, k, hash);
      assert k !in q.owed + q.skipped;
    }
  }

  lemma OtherStillCounted(s: State, tx: Tx, x: Tx, hash: Key -> int)
    requires Inv(s, hash) && tx in s.removers && x in s.removers && x != tx && AllCounted(s, s.removers[tx])
    ensures CountedInv(CommitRemoveStep(s, tx), s.removers[x], hash)
  {
    hide Safe, UploadsInv, LocksInv;
    var t, r := CommitRemoveStep(s, tx), s.removers[x];
    assert CountedInv(s, r, hash);
    forall k | Keyed(s, r, k) ensures Keyed(t, r, k) {
      var id :| id in r.deleted && id in s.rows && s.rows[id] == k;
      assert id in t.rows;
    }
    forall k | k in r.skipped ensures Visible(t, r, k) {
      SkippedStaysNamed(s, x, tx, k, hash);
      var id :| id in s.rows && s.rows[id] == k && id !in r.deleted;
      assert id in t.rows;
    }
    forall k | k in r.owed ensures !Visible(t, r, k) { assert !Visible(s, r, k); }
  }

  lemma CommitRemoveSafe(s: State, tx: Tx, hash: Key -> int)
    requires Inv(s, hash) && tx in s.removers && AllCounted(s, s.removers[tx])
    ensures Safe(CommitRemoveStep(s, tx)) && UploadsInv(CommitRemoveStep(s, tx))
  {
    hide HoldsInv, LocksInv;
    var t, r := CommitRemoveStep(s, tx), s.removers[tx];
    assert CountedInv(s, r, hash);
    forall id | id in t.rows ensures t.rows[id] in t.objects && t.rows[id] !in t.queue {
      assert t.rows[id] == s.rows[id] && id !in r.deleted;
      assert Visible(s, r, s.rows[id]);
    }
    forall k | k in t.objects ensures k in t.queue || Named(t.rows, k) || Staged(t, k) {
      if Named(s.rows, k) { LastRowOwed(s, tx, k, hash); }
      if Staged(s, k) { StagedStill(s, t, k); }
    }
    CommitRemoveUploads(s, tx, hash);
  }

  lemma CommitRemoveUploads(s: State, tx: Tx, hash: Key -> int)
    requires Inv(s, hash) && tx in s.removers && AllCounted(s, s.removers[tx])
    ensures UploadsInv(CommitRemoveStep(s, tx))
  {
  }

  /** A key a remover's commit leaves without a row is owed by that same commit. */
  lemma LastRowOwed(s: State, tx: Tx, k: Key, hash: Key -> int)
    requires Inv(s, hash) && Named(s.rows, k)
    ensures Named(CommitRemoveStep(s, tx).rows, k) || k in CommitRemoveStep(s, tx).queue
  {
    hide Safe, UploadsInv, HoldsInv, LocksInv;
    var t := CommitRemoveStep(s, tx);
    if tx in s.removers && AllCounted(s, s.removers[tx]) {
      var r := s.removers[tx];
      assert CountedInv(s, r, hash);
      if Visible(s, r, k) {
        var id :| id in s.rows && s.rows[id] == k && id !in r.deleted;
        assert t.rows[id] == k;
      } else {
        var id :| id in s.rows && s.rows[id] == k;
        assert id in r.deleted && k in r.owed + r.skipped;
      }
    }
  }

  lemma CommitRemoveKeeps(s: State, tx: Tx, hash: Key -> int)
    requires Inv(s, hash)
    ensures Inv(CommitRemoveStep(s, tx), hash)
  {
    hide CountedInv, Safe, UploadsInv;
    var t := CommitRemoveStep(s, tx);
    if tx in s.removers && AllCounted(s, s.removers[tx]) {
      CommitRemoveSafe(s, tx, hash);
      forall x | x in t.removers ensures CountedInv(t, t.removers[x], hash) { OtherStillCounted(s, tx, x, hash); }
      CommitRemoveHolds(s, tx);
    }
  }

  lemma CommitRemoveHolds(s: State, tx: Tx)
    requires HoldsInv(s) && tx in s.removers && AllCounted(s, s.removers[tx])
    ensures HoldsInv(CommitRemoveStep(s, tx))
  {
  }

  // ---------------------------------------------------------------- the drain

  lemma DrainKeeps(s: State, k: Key, hash: Key -> int)
    requires Inv(s, hash)
    ensures k in s.queue ==> Inv(s.(objects := s.objects - {k}), hash)
    ensures k !in s.objects ==> Inv(s.(queue := s.queue - {k}), hash)
  {
    hide CountedInv, HoldsInv, LocksInv;
    if k in s.queue {
      var t := s.(objects := s.objects - {k});
      SameRemovers(s, t, hash);
      SameHolds2(s, t);
      DrainSafe(s, t);
    }
    if k !in s.objects {
      var t := s.(queue := s.queue - {k});
      SameRemovers(s, t, hash);
      SameHolds2(s, t);
      DrainSafe(s, t);
    }
  }

  lemma DrainSafe(s: State, t: State)
    requires Safe(s) && UploadsInv(s)
    requires t == s.(objects := t.objects, queue := t.queue) && t.objects <= s.objects && t.queue <= s.queue
    requires forall k :: k in s.objects && k !in t.objects ==> k in s.queue
    requires forall k :: k in s.queue && k !in t.queue ==> k !in s.objects
    ensures Safe(t) && UploadsInv(t)
  {
  }

  // ---------------------------------------------------------------- every run

  lemma StepKeeps(s: State, a: Action, hash: Key -> int)
    requires Inv(s, hash)
    ensures Inv(Step(s, a, hash), hash)
  {
    hide Inv, PutStep, CommitUploadStep, DiscardStep, ShareStep, CommitMintStep, TakeStep;
    hide EnqueueStep, CountStep, LockStep, CountLockedStep, CommitRemoveStep;
    match a
    case Put(tx, id) => PutKeeps(s, tx, id, hash);
    case CommitUpload(tx) => CommitUploadKeeps(s, tx, hash);
    case DiscardUpload(tx) => DiscardKeeps(s, tx, hash);
    case Share(tx, source, copy) => ShareKeeps(s, tx, source, copy, hash);
    case CommitMint(tx) => CommitMintKeeps(s, tx, hash);
    case AbortMint(tx) => AbortMintKeeps(s, tx, hash);
    case Take(tx, id) => TakeKeeps(s, tx, id, hash);
    case Enqueue(tx) => CountKeeps(s, tx, OwnedBy(""), hash);
    case Count(tx, k) => CountKeeps(s, tx, k, hash);
    case Lock(tx, k) => CountKeeps(s, tx, k, hash);
    case CountLocked(tx, k) => CountKeeps(s, tx, k, hash);
    case CommitRemove(tx) => CommitRemoveKeeps(s, tx, hash);
    case AbortRemove(tx) => AbortRemoveKeeps(s, tx, hash);
    case DrainObject(k) => DrainKeeps(s, k, hash);
    case DrainRow(k) => DrainKeeps(s, k, hash);
  }

  lemma EmptyHolds(hash: Key -> int)
    ensures Inv(Empty, hash)
  {
  }

  /** Over every interleaving no named object is queued or missing, and none is stored unowned. */
  lemma {:induction false} FilesStaySafe(acts: seq<Action>, hash: Key -> int)
    ensures Safe(Run(acts, hash)) && Inv(Run(acts, hash), hash)
    decreases |acts|
  {
    hide Step, UploadsInv, HoldsInv, LocksInv, CountedInv, Safe;
    if acts == [] {
      EmptyHolds(hash);
    } else {
      FilesStaySafe(acts[..|acts| - 1], hash);
      StepKeeps(Run(acts[..|acts| - 1], hash), acts[|acts| - 1], hash);
    }
  }

  /** Whatever ran before: the commit that takes a key's last row queues it, and no other step unnames a key. */
  lemma LastRowQueuedAtOnce(acts: seq<Action>, a: Action, k: Key, hash: Key -> int)
    requires Named(Run(acts, hash).rows, k) && !Named(Step(Run(acts, hash), a, hash).rows, k)
    ensures a.CommitRemove? && k in Step(Run(acts, hash), a, hash).queue
  {
    hide Run, Inv, Safe;
    var s := Run(acts, hash);
    FilesStaySafe(acts, hash);
    if a.CommitRemove? {
      LastRowOwed(s, a.tx, k, hash);
    } else {
      OnlyCommitsUnname(s, a, k, hash);
    }
  }

  lemma OnlyCommitsUnname(s: State, a: Action, k: Key, hash: Key -> int)
    requires !a.CommitRemove? && Named(s.rows, k)
    ensures Named(Step(s, a, hash).rows, k)
  {
    var t := Step(s, a, hash);
    var id :| id in s.rows && s.rows[id] == k;
    assert t.rows[id] == k;
  }
}

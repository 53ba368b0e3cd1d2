/**
 File rows, the objects they name and the queue of objects owed to deletion,
 under concurrent uploads, copies, removals and drains. A remover is any
 transaction that deletes file rows: a delete, the expiry sweep, a session's
 delete, a dream's close (internal/api/files.go:526-579,
 internal/api/fileretention.go:241-291, internal/api/dreamrunner.go:1065-1093,
 internal/store/migrations/0046_files_object_key.sql).
 */
module FileObjects {
  type FileId = string
  type Tx = nat

  // files/{id}: the object an upload's or a transcript's row owns; a copy's row names its source's.
  datatype Key = OwnedBy(id: FileId)

  /**
   A remover's open transaction. deleted: the rows it has deleted, which it
   holds exclusively and every other transaction still sees. owed, skipped: the
   keys it has counted and queued, or found still named. locks: the advisory
   locks it holds to its end, by hash.
   */
  datatype Remover = Remover(deleted: set<FileId>, enqueuing: bool, owed: set<Key>, skipped: set<Key>, locks: set<int>)

  // A copy being minted: its source's row is held FOR SHARE.
  datatype Mint = Mint(source: FileId, copy: FileId)

  datatype State = State(
    rows: map<FileId, Key>, objects: set<Key>, queue: set<Key>, minted: set<FileId>,
    removers: map<Tx, Remover>, mints: map<Tx, Mint>, uploads: map<Tx, FileId>)

  datatype Action =
    | Put(tx: Tx, id: FileId)
    | CommitUpload(tx: Tx)
    | DiscardUpload(tx: Tx)
    | Share(tx: Tx, source: FileId, copy: FileId)
    | CommitMint(tx: Tx)
    | AbortMint(tx: Tx)
    | Take(tx: Tx, id: FileId)
    | Enqueue(tx: Tx)
    | Count(tx: Tx, key: Key)
    | Lock(tx: Tx, key: Key)
    | CountLocked(tx: Tx, key: Key)
    | CommitRemove(tx: Tx)
    | AbortRemove(tx: Tx)
    | DrainObject(key: Key)
    | DrainRow(key: Key)

  const Empty: State := State(map[], {}, {}, {}, map[], map[], map[])

  predicate Named(rows: map<FileId, Key>, k: Key) {
    exists id :: id in rows && rows[id] == k
  }

  // Under READ COMMITTED a remover's statement sees every committed row but its own deletions.
  predicate Visible(s: State, r: Remover, k: Key) {
    exists id :: id in s.rows && s.rows[id] == k && id !in r.deleted
  }

  predicate HeldByRemover(s: State, id: FileId) {
    exists t :: t in s.removers && id in s.removers[t].deleted
  }

  predicate HeldByMint(s: State, id: FileId) {
    exists t :: t in s.mints && s.mints[t].source == id
  }

  predicate Keyed(s: State, r: Remover, k: Key) {
    exists id :: id in r.deleted && id in s.rows && s.rows[id] == k
  }

  predicate LockFree(s: State, tx: Tx, h: int) {
    forall t :: t in s.removers && t != tx ==> h !in s.removers[t].locks
  }

  function RemoverOf(s: State, tx: Tx): Remover {
    if tx in s.removers then s.removers[tx] else Remover({}, false, {}, {}, {})
  }

  function WithRemover(s: State, tx: Tx, r: Remover): State {
    s.(removers := s.removers[tx := r])
  }

  // Every key its deletions name has been counted.
  predicate AllCounted(s: State, r: Remover) {
    r.enqueuing && forall id :: id in r.deleted && id in s.rows ==> s.rows[id] in r.owed + r.skipped
  }

  function TakeStep(s: State, tx: Tx, id: FileId): State {
    var r := RemoverOf(s, tx);
    if id !in s.rows || r.enqueuing || HeldByRemover(s, id) || HeldByMint(s, id) then s
    else WithRemover(s, tx, r.(deleted := r.deleted + {id}))
  }

  function EnqueueStep(s: State, tx: Tx): State {
    if tx !in s.removers then s else WithRemover(s, tx, s.removers[tx].(enqueuing := true))
  }

  predicate Counts(s: State, tx: Tx, k: Key) {
    tx in s.removers && s.removers[tx].enqueuing && Keyed(s, s.removers[tx], k)
  }

  // The trigger's first look: no other row names the key, and it is owed.
  function CountStep(s: State, tx: Tx, k: Key): State {
    if !Counts(s, tx, k) || Visible(s, s.removers[tx], k) then s
    else WithRemover(s, tx, s.removers[tx].(owed := s.removers[tx].owed + {k}))
  }

  // A row names it: wait for the key's advisory lock.
  function LockStep(s: State, tx: Tx, k: Key, hash: Key -> int): State {
    if !Counts(s, tx, k) || !LockFree(s, tx, hash(k)) then s
    else WithRemover(s, tx, s.removers[tx].(locks := s.removers[tx].locks + {hash(k)}))
  }

  // And look again, with whatever committed meanwhile.
  function CountLockedStep(s: State, tx: Tx, k: Key, hash: Key -> int): State {
    if !Counts(s, tx, k) || hash(k) !in s.removers[tx].locks then s
    else if Visible(s, s.removers[tx], k) then WithRemover(s, tx, s.removers[tx].(skipped := s.removers[tx].skipped + {k}))
    else WithRemover(s, tx, s.removers[tx].(owed := s.removers[tx].owed + {k}))
  }

  function CommitRemoveStep(s: State, tx: Tx): State {
    if tx !in s.removers || !AllCounted(s, s.removers[tx]) then s
    else
      var r := s.removers[tx];
      s.(rows := s.rows - r.deleted, queue := s.queue + r.owed, removers := s.removers - {tx})
  }

  function ShareStep(s: State, tx: Tx, source: FileId, copy: FileId): State {
    if tx in s.mints || source !in s.rows || HeldByRemover(s, source) then s
    else s.(mints := s.mints[tx := Mint(source, copy)], minted := s.minted + {copy})
  }

  function CommitMintStep(s: State, tx: Tx): State {
    if tx !in s.mints || s.mints[tx].source !in s.rows || s.mints[tx].copy in s.rows then s
    else s.(rows := s.rows[s.mints[tx].copy := s.rows[s.mints[tx].source]], mints := s.mints - {tx})
  }

  // The object is put before its row commits, under a fresh id.
  function PutStep(s: State, tx: Tx, id: FileId): State {
    if tx in s.uploads || id in s.minted then s
    else s.(uploads := s.uploads[tx := id], minted := s.minted + {id}, objects := s.objects + {OwnedBy(id)})
  }

  function CommitUploadStep(s: State, tx: Tx): State {
    if tx !in s.uploads || s.uploads[tx] in s.rows then s
    else s.(rows := s.rows[s.uploads[tx] := OwnedBy(s.uploads[tx])], uploads := s.uploads - {tx})
  }

  function DiscardStep(s: State, tx: Tx): State {
    if tx !in s.uploads then s
    else s.(objects := s.objects - {OwnedBy(s.uploads[tx])}, uploads := s.uploads - {tx})
  }

  function Step(s: State, a: Action, hash: Key -> int): State {
    match a
    case Put(tx, id) => PutStep(s, tx, id)
    case CommitUpload(tx) => CommitUploadStep(s, tx)
    case DiscardUpload(tx) => DiscardStep(s, tx)
    case Share(tx, source, copy) => ShareStep(s, tx, source, copy)
    case CommitMint(tx) => CommitMintStep(s, tx)
    case AbortMint(tx) => s.(mints := s.mints - {tx})
    case Take(tx, id) => TakeStep(s, tx, id)
    case Enqueue(tx) => EnqueueStep(s, tx)
    case Count(tx, k) => CountStep(s, tx, k)
    case Lock(tx, k) => LockStep(s, tx, k, hash)
    case CountLocked(tx, k) => CountLockedStep(s, tx, k, hash)
    case CommitRemove(tx) => CommitRemoveStep(s, tx)
    case AbortRemove(tx) => s.(removers := s.removers - {tx})
    case DrainObject(k) => if k in s.queue then s.(objects := s.objects - {k}) else s
    case DrainRow(k) => if k in s.objects then s else s.(queue := s.queue - {k})
  }

  function Run(acts: seq<Action>, hash: Key -> int): State {
    if acts == [] then Empty else Step(Run(acts[..|acts| - 1], hash), acts[|acts| - 1], hash)
  }

  // ---------------------------------------------------------------- what every state keeps

  /** No object a row names is owed to deletion or missing; none is stored that is not named, owed or being uploaded. */
  ghost predicate Safe(s: State) {
    && (forall id :: id in s.rows ==> s.rows[id] in s.objects && s.rows[id] !in s.queue)
    && forall k :: k in s.objects ==> k in s.queue || Named(s.rows, k) || Staged(s, k)
  }

  ghost predicate Staged(s: State, k: Key) {
    exists t :: t in s.uploads && OwnedBy(s.uploads[t]) == k
  }

  ghost predicate UploadsInv(s: State) {
    && (forall t :: t in s.uploads ==>
          && s.uploads[t] in s.minted && OwnedBy(s.uploads[t]) in s.objects
          && OwnedBy(s.uploads[t]) !in s.queue && !Named(s.rows, OwnedBy(s.uploads[t])))
    && (forall t, u :: t in s.uploads && u in s.uploads && s.uploads[t] == s.uploads[u] ==> t == u)
    && (forall id :: id in s.rows ==> s.rows[id].id in s.minted)
    && forall k :: k in s.queue ==> k.id in s.minted
  }

  ghost predicate HoldsInv(s: State) {
    && (forall t :: t in s.removers ==> forall id :: id in s.removers[t].deleted ==> id in s.rows)
    && (forall t, u, id :: t in s.removers && u in s.removers && id in s.removers[t].deleted && id in s.removers[u].deleted ==> t == u)
    && (forall t :: t in s.mints ==> s.mints[t].source in s.rows && !HeldByRemover(s, s.mints[t].source))
  }

  ghost predicate LocksInv(s: State) {
    forall t, u, h :: t in s.removers && u in s.removers && h in s.removers[t].locks && h in s.removers[u].locks ==> t == u
  }

  // What a remover has found out stays true until it commits.
  ghost predicate CountedInv(s: State, r: Remover, hash: Key -> int) {
    && (!r.enqueuing ==> r.owed == {} && r.skipped == {})
    && (forall k :: k in r.owed ==> Keyed(s, r, k) && !Visible(s, r, k))
    && forall k :: k in r.skipped ==> Keyed(s, r, k) && Visible(s, r, k) && hash(k) in r.locks
  }

  ghost predicate Inv(s: State, hash: Key -> int) {
    && Safe(s) && UploadsInv(s) && HoldsInv(s) && LocksInv(s)
    && forall t :: t in s.removers ==> CountedInv(s, s.removers[t], hash)
  }
}

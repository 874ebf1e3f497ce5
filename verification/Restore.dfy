/** The join seed's data directory (v0alpha0/snapshot/snapshot.go, v0alpha0/peer.go seedFromSnapshot). */
module Restore {
  import opened Text
  import opened Membership
  import opened SeedReplay
  import opened Checksum

  datatype MemberInfo = MemberInfo(id: Id, member: Member)

  /** An opened backend: its key-value content, its membership buckets and its consistent index and term. */
  datatype Db = Db(kv: seq<Byte>, members: Members, index: nat, term: nat)

  datatype ConfState = ConfState(voters: seq<Id>, learners: seq<Id>)

  datatype Wal = Wal(nodeID: Id, clusterID: nat, term: nat, commit: nat, snapIndex: nat, snapTerm: nat, conf: ConfState)

  datatype RaftSnapshot = RaftSnapshot(members: Members, index: nat, term: nat, conf: ConfState)

  datatype RestoreConfig = RestoreConfig(name: string, selfID: Id, clusterID: nat, members: seq<MemberInfo>)

  /** The operation whose input or output fails, if one does. */
  datatype Fault = NoFault | OpenSource | OpenOutput | TrimMembership | MakeWalDir | WriteWal | WriteSnapshot | ForceIndex

  datatype RestoreError = Restored | NoSelfID | NoClusterID | DirNotEmpty | BadCopy(copy: CopyError) | Failed(fault: Fault)

  /** What a later Join does with a data directory: seed it, leave it as it is, or boot the log found in it. */
  datatype NextJoin = Seeds | SkipsSeed | BootsWal

  /** The membership a list of members describes; the last entry of an ID counts. */
  function ClusterOf(infos: seq<MemberInfo>): Members {
    if infos == [] then map[]
    else ClusterOf(infos[..|infos| - 1])[infos[|infos| - 1].id := infos[|infos| - 1].member]
  }

  /** A list that enumerates a membership. */
  predicate Lists(infos: seq<MemberInfo>, ms: Members) {
    && (forall i, j :: 0 <= i < j < |infos| ==> infos[i].id != infos[j].id)
    && (forall i :: 0 <= i < |infos| ==> infos[i].id in ms && infos[i].member == ms[infos[i].id])
    && (forall id :: id in ms ==> exists i :: 0 <= i < |infos| && infos[i].id == id)
  }

  lemma {:induction false} ClusterOfAt(infos: seq<MemberInfo>)
    requires forall i, j :: 0 <= i < j < |infos| ==> infos[i].id != infos[j].id
    ensures forall i :: 0 <= i < |infos| ==> infos[i].id in ClusterOf(infos) && ClusterOf(infos)[infos[i].id] == infos[i].member
    ensures forall id :: id in ClusterOf(infos) ==> exists i :: 0 <= i < |infos| && infos[i].id == id
    decreases |infos|
  {
    if infos != [] {
      var n := |infos| - 1;
      var rest := infos[..n];
      ClusterOfAt(rest);
      forall id | id in ClusterOf(infos) ensures exists i :: 0 <= i < |infos| && infos[i].id == id {
        if id != infos[n].id {
          var i :| 0 <= i < |rest| && rest[i].id == id;
          assert infos[i].id == id;
        }
      }
    }
  }

  lemma ListedCluster(infos: seq<MemberInfo>, ms: Members)
    requires Lists(infos, ms)
    ensures ClusterOf(infos) == ms
  {
    ClusterOfAt(infos);
    forall id ensures id in ClusterOf(infos) <==> id in ms {
    }
    forall id | id in ms ensures ClusterOf(infos)[id] == ms[id] {
      var i :| 0 <= i < |infos| && infos[i].id == id;
    }
  }

  /** toMemberInfos, over the members in the order the server lists them. */
  method ToMemberInfos(ms: Members, order: seq<Id>) returns (infos: seq<MemberInfo>)
    requires forall i, j :: 0 <= i < j < |order| ==> order[i] != order[j]
    requires forall id :: id in order <==> id in ms
    ensures Lists(infos, ms)
  {
    infos := [];
    for i := 0 to |order|
      invariant |infos| == i && forall k :: 0 <= k < i ==> infos[k] == MemberInfo(order[k], ms[order[k]])
    {
      infos := infos + [MemberInfo(order[i], ms[order[i]])];
    }
    forall id | id in ms ensures exists i :: 0 <= i < |infos| && infos[i].id == id {
      var i :| 0 <= i < |order| && order[i] == id;
      assert infos[i].id == id;
    }
  }

  // ---- which restores succeed ----

  /** What becomes of the copied database. */
  function SaveOutcome(file: seq<Byte>, hash: Hash, fault: Fault): RestoreError {
    if fault == OpenSource then Failed(OpenSource)
    else if CopyOutcome(file, hash) == ShortSource then BadCopy(ShortSource)
    else if fault == OpenOutput then Failed(OpenOutput)
    else if CopyOutcome(file, hash) != NoError then BadCopy(CopyOutcome(file, hash))
    else if fault == TrimMembership then Failed(TrimMembership)
    else Restored
  }

  function RestoreOutcome(selfID: Id, clusterID: nat, empty: bool, file: seq<Byte>, hash: Hash, fault: Fault): RestoreError {
    if selfID == 0 then NoSelfID
    else if clusterID == 0 then NoClusterID
    else if !empty then DirNotEmpty
    else if SaveOutcome(file, hash, fault) != Restored then SaveOutcome(file, hash, fault)
    else if fault != NoFault then Failed(fault)
    else Restored
  }

  /** A restore succeeds exactly when it has both IDs, an empty directory, a sealed file and no fault. A fault
      is reported as itself exactly when the restore gets as far as the operation it befalls. */
  lemma RestoredIff(selfID: Id, clusterID: nat, empty: bool, file: seq<Byte>, hash: Hash, fault: Fault)
    ensures var err := RestoreOutcome(selfID, clusterID, empty, file, hash, fault);
      && (err == Restored <==>
            selfID != 0 && clusterID != 0 && empty && fault == NoFault && exists payload :: Sealed(file, payload, hash))
      && (err == Failed(fault) <==>
            && selfID != 0 && clusterID != 0 && empty && fault != NoFault
            && (fault == OpenOutput ==> |file| >= HASH_SIZE)
            && (fault != OpenOutput && fault != OpenSource ==> exists payload :: Sealed(file, payload, hash)))
  {
    AcceptsSealed(file, hash);
    hide Accepts, Sealed;
    assert CopyOutcome(file, hash) == ShortSource <==> |file| < HASH_SIZE;
    hide CopyOutcome;
  }

  /** Which error a restore ends with. A snapshot shorter than a digest is found out before the output is reached,
      a missing or wrong digest only after it. */
  lemma WhichError(selfID: Id, clusterID: nat, empty: bool, file: seq<Byte>, hash: Hash, fault: Fault)
    ensures var err := RestoreOutcome(selfID, clusterID, empty, file, hash, fault);
      var reached := selfID != 0 && clusterID != 0 && empty && fault != OpenSource;
      && (err == NoSelfID <==> selfID == 0)
      && (err == NoClusterID <==> selfID != 0 && clusterID == 0)
      && (err == DirNotEmpty <==> selfID != 0 && clusterID != 0 && !empty)
      && (err == BadCopy(ShortSource) <==> reached && |file| < 32)
      && (err == BadCopy(MissingHash) <==> reached && fault != OpenOutput && |file| >= 32 && |file| % 512 != 32)
      && (err == BadCopy(HashMismatch) <==>
            reached && fault != OpenOutput && |file| % 512 == 32 && hash(file[..|file| - 32]) != file[|file| - 32..])
  {
  }

  class DataDir {
    var snapDir: bool
    var walDir: bool
    var db: Option<Db>
    var wal: Option<Wal>
    var snap: Option<RaftSnapshot>

    predicate Empty() reads this { !snapDir && !walDir }

    /** hasMemberData, then the emptiness test of seedFromSnapshot. */
    function Next(): NextJoin reads this {
      if walDir then BootsWal else if snapDir then SkipsSeed else Seeds
    }
  }

  /** What the restore writes for a cluster, given the copied backend. */
  ghost predicate SeedsFrom(dir: DataDir, cfg: RestoreConfig, source: Db)
    reads dir
  {
    && dir.db == Some(Db(source.kv, ClusterOf(cfg.members), source.index, source.term))
    && dir.wal.Some? && dir.snap.Some?
    && (var w := dir.wal.value;
        && w.nodeID == cfg.selfID && w.clusterID == cfg.clusterID
        && w.term == w.snapTerm == source.term && w.commit == w.snapIndex == source.index
        && Splits(w.conf, ClusterOf(cfg.members))
        && dir.snap.value == RaftSnapshot(ClusterOf(cfg.members), source.index, source.term, w.conf))
  }

  ghost predicate Splits(conf: ConfState, ms: Members) {
    && (forall id :: id in conf.voters <==> id in Voters(ms))
    && (forall id :: id in conf.learners <==> id in Learners(ms))
    && (forall i, j :: 0 <= i < j < |conf.voters| ==> conf.voters[i] != conf.voters[j])
    && (forall i, j :: 0 <= i < j < |conf.learners| ==> conf.learners[i] != conf.learners[j])
  }

  class Manager {
    var name: string
    var selfID: Id
    var cl: Members
    var ids: seq<Id>

    constructor () {
      name, selfID, cl, ids := "", 0, map[], [];
    }

    /** The cluster object, its IDs each listed once. */
    ghost predicate Clustered()
      reads this
    {
      && (forall id :: id in ids <==> id in cl)
      && (forall i, j :: 0 <= i < j < |ids| ==> ids[i] != ids[j])
    }

    method NewClusterFromMembers(infos: seq<MemberInfo>)
      modifies `cl, `ids
      ensures Clustered() && cl == ClusterOf(infos)
    {
      cl, ids := map[], [];
      for i := 0 to |infos|
        invariant Clustered() && cl == ClusterOf(infos[..i])
      {
        assert infos[..i + 1][..i] == infos[..i];
        if infos[i].id !in cl { ids := ids + [infos[i].id]; }
        cl := cl[infos[i].id := infos[i].member];
      }
      assert infos[..|infos|] == infos;
    }

    method SaveWALAndSnap(dir: DataDir, clusterID: nat, index: nat, term: nat, fault: Fault) returns (failed: Fault)
      requires Clustered() && dir.db.Some?
      modifies dir`walDir, dir`wal, dir`snap, dir`db
      ensures failed == if fault == MakeWalDir || fault == WriteWal || fault == WriteSnapshot then fault else NoFault
      ensures failed == MakeWalDir ==> unchanged(dir)
      ensures failed != MakeWalDir ==> dir.walDir
      ensures failed == NoFault ==>
        && dir.db == Some(old(dir.db.value).(members := cl))
        && dir.wal.Some? && Splits(dir.wal.value.conf, cl)
        && dir.wal.value == Wal(selfID, clusterID, term, index, index, term, dir.wal.value.conf)
        && dir.snap == Some(RaftSnapshot(cl, index, term, dir.wal.value.conf))
    {
      if fault == MakeWalDir { return MakeWalDir; }
      dir.walDir := true;
      dir.db := Some(dir.db.value.(members := cl));
      var voters, learners: seq<Id> := [], [];
      for i := 0 to |ids|
        invariant forall id :: id in voters <==> id in ids[..i] && !cl[id].isLearner
        invariant forall id :: id in learners <==> id in ids[..i] && cl[id].isLearner
        invariant forall j, k :: 0 <= j < k < |voters| ==> voters[j] != voters[k]
        invariant forall j, k :: 0 <= j < k < |learners| ==> learners[j] != learners[k]
      {
        var id := ids[i];
        assert ids[..i + 1] == ids[..i] + [id];
        assert id !in ids[..i];
        if cl[id].isLearner { learners := learners + [id]; } else { voters := voters + [id]; }
      }
      assert ids[..|ids|] == ids;
      var conf := ConfState(voters, learners);
      if fault == WriteWal { return WriteWal; }
      dir.wal := Some(Wal(selfID, clusterID, term, index, index, term, conf));
      if fault == WriteSnapshot { return WriteSnapshot; }
      dir.snap := Some(RaftSnapshot(cl, index, term, conf));
      return NoFault;
    }

    /** saveDB: the copied backend, its membership trimmed. `open` stands for reading a backend out of a
        database file. */
    method SaveDB(file: seq<Byte>, dir: DataDir, hash: Hash, open: seq<Byte> -> Db, fault: Fault)
      returns (err: RestoreError, ghost payload: seq<Byte>)
      modifies dir`snapDir, dir`db
      ensures err == SaveOutcome(file, hash, fault)
      ensures err == Restored ==> Sealed(file, payload, hash) && dir.db == Some(open(payload).(members := map[]))
      ensures LeavesDirClean(err) ==> unchanged(dir)
      ensures !LeavesDirClean(err) ==> dir.snapDir
      ensures err == Restored || !LeavesWal(err)
    {
      payload := [];
      if fault == OpenSource { return Failed(OpenSource), payload; }
      if |file| < HASH_SIZE { return BadCopy(ShortSource), payload; }
      dir.snapDir := true;
      if fault == OpenOutput { return Failed(OpenOutput), payload; }
      var copied, disk := RestoreFresh(file, hash);
      if copied != NoError { return BadCopy(copied), payload; }
      payload := disk;
      if fault == TrimMembership { return Failed(TrimMembership), payload; }
      dir.db := Some(open(disk).(members := map[]));
      return Restored, payload;
    }

    method Restore(cfg: RestoreConfig, file: seq<Byte>, dir: DataDir, hash: Hash, open: seq<Byte> -> Db, fault: Fault)
      returns (err: RestoreError)
      modifies this, dir
      ensures err == RestoreOutcome(cfg.selfID, cfg.clusterID, old(dir.Empty()), file, hash, fault)
      ensures err == Restored <==>
        && cfg.selfID != 0 && cfg.clusterID != 0 && old(dir.Empty()) && fault == NoFault
        && exists payload :: Sealed(file, payload, hash)
      ensures err == Restored ==>
        exists payload :: Sealed(file, payload, hash) && SeedsFrom(dir, cfg, open(payload))
      // Which failures leave the directory as the next Join needs it.
      ensures old(dir.Empty()) ==> (dir.Next() == Seeds <==> LeavesDirClean(err))
      ensures old(dir.Empty()) ==>
        (dir.Next() == BootsWal <==> LeavesWal(err))
      ensures !old(dir.Empty()) ==> unchanged(dir)
    {
      RestoredIff(cfg.selfID, cfg.clusterID, dir.Empty(), file, hash, fault);
      hide Sealed, SaveOutcome, SeedsFrom, ClusterOf;
      if cfg.selfID == 0 { return NoSelfID; }
      if cfg.clusterID == 0 { return NoClusterID; }
      NewClusterFromMembers(cfg.members);
      if !dir.Empty() { return DirNotEmpty; }
      name, selfID := cfg.name, cfg.selfID;
      err := Fill(dir, cfg, file, hash, open, fault);
    }

    /** The database, then everything that is written beside it. */
    method Fill(dir: DataDir, cfg: RestoreConfig, file: seq<Byte>, hash: Hash, open: seq<Byte> -> Db, fault: Fault)
      returns (err: RestoreError)
      requires Clustered() && cl == ClusterOf(cfg.members) && selfID == cfg.selfID && dir.Empty()
      modifies dir
      ensures var saved := SaveOutcome(file, hash, fault);
        err == if saved == Restored && fault != NoFault then Failed(fault) else saved
      ensures err == Restored ==>
        exists payload :: Sealed(file, payload, hash) && SeedsFrom(dir, cfg, open(payload))
      ensures dir.Next() == Seeds <==> LeavesDirClean(err)
      ensures dir.Next() == BootsWal <==> LeavesWal(err)
    {
      assert SaveOutcome(file, hash, fault) == Restored ==> fault == NoFault || Writes(fault);
      hide Sealed, SaveOutcome, SeedsFrom, ClusterOf, Clustered;
      ghost var payload;
      err, payload := SaveDB(file, dir, hash, open, fault);
      if err != Restored { return; }
      err := WriteSeed(dir, cfg, open(payload), fault);
    }

    /** The log, the raft snapshot and the forced consistent index, all at the copied backend's own index. */
    method WriteSeed(dir: DataDir, cfg: RestoreConfig, ghost source: Db, fault: Fault) returns (err: RestoreError)
      requires Clustered() && cl == ClusterOf(cfg.members) && selfID == cfg.selfID
      requires dir.snapDir && !dir.walDir && dir.db == Some(source.(members := map[]))
      modifies dir`walDir, dir`wal, dir`snap, dir`db
      ensures err == if Writes(fault) then Failed(fault) else Restored
      ensures err == Restored ==> SeedsFrom(dir, cfg, source)
      ensures LeavesWal(err) <==> dir.walDir
      ensures !LeavesDirClean(err)
    {
      var index, term := dir.db.value.index, dir.db.value.term;
      var failed := SaveWALAndSnap(dir, cfg.clusterID, index, term, fault);
      if failed != NoFault { return Failed(failed); }
      if fault == ForceIndex { return Failed(ForceIndex); }
      dir.db := Some(dir.db.value.(index := dir.wal.value.commit, term := dir.wal.value.term));
      return Restored;
    }
  }

  /** The faults of the operations after the database is in place. */
  predicate Writes(fault: Fault) {
    fault == MakeWalDir || fault == WriteWal || fault == WriteSnapshot || fault == ForceIndex
  }

  /** The failures that come before anything is written. */
  predicate LeavesDirClean(err: RestoreError) {
    match err
    case NoSelfID | NoClusterID => true
    case BadCopy(copy) => copy == ShortSource
    case Failed(fault) => fault == OpenSource
    case _ => false
  }

  /** The outcomes with a log directory in place. */
  predicate LeavesWal(err: RestoreError) {
    match err
    case Restored => true
    case Failed(fault) => fault == WriteWal || fault == WriteSnapshot || fault == ForceIndex
    case _ => false
  }

  /** What a later Join finds once a restore into an empty directory has ended. */
  function NextAfter(err: RestoreError): NextJoin {
    if LeavesDirClean(err) then Seeds else if LeavesWal(err) then BootsWal else SkipsSeed
  }

  /** A restore into an empty directory leaves it empty exactly when an ID is missing, the snapshot cannot be
      opened, or it is too short to hold a digest. */
  lemma LeavesCleanIff(selfID: Id, clusterID: nat, file: seq<Byte>, hash: Hash, fault: Fault)
    ensures LeavesDirClean(RestoreOutcome(selfID, clusterID, true, file, hash, fault))
       <==> selfID == 0 || clusterID == 0 || fault == OpenSource || |file| < HASH_SIZE
  {
    hide Trimmed, HasChecksum;
  }

  /** The add's answer, as the joiner holds it. */
  datatype AddResult = AddResult(selfID: Id, clusterID: nat, members: seq<MemberInfo>)

  datatype SeedOutcome = Skipped | Seeded(err: RestoreError)

  /** A copy of the list with the joiner's own name filled in. */
  method FillName(infos: seq<MemberInfo>, selfID: Id, name: string) returns (members: seq<MemberInfo>)
    ensures |members| == |infos|
    ensures ClusterOf(members) == Seed(ClusterOf(infos), selfID, name)
  {
    members := infos;
    assert infos[..0] == [];
    assert infos[..|infos|] == infos;
    assert Seed(map[], selfID, name) == map[];
    hide Seed;
    for i := 0 to |infos|
      invariant |members| == |infos|
      invariant forall k :: i <= k < |members| ==> members[k] == infos[k]
      invariant ClusterOf(members[..i]) == Seed(ClusterOf(infos[..i]), selfID, name)
    {
      ghost var before := members[..i];
      var info := infos[i];
      if members[i].id == selfID {
        members := members[i := members[i].(member := members[i].member.(name := name))];
      }
      assert members[..i + 1] == before + [members[i]] && infos[..i + 1] == infos[..i] + [info];
      ClusterSnoc(before, members[i]);
      ClusterSnoc(infos[..i], info);
      SeedSnoc(ClusterOf(infos[..i]), info.id, info.member, selfID, name);
    }
    assert members[..|members|] == members;
  }

  lemma ClusterSnoc(infos: seq<MemberInfo>, info: MemberInfo)
    ensures ClusterOf(infos + [info]) == ClusterOf(infos)[info.id := info.member]
  {
    assert (infos + [info])[..|infos|] == infos;
  }

  lemma SeedSnoc(ms: Members, id: Id, m: Member, selfID: Id, name: string)
    ensures Seed(ms[id := m], selfID, name) ==
      Seed(ms, selfID, name)[id := if id == selfID then m.(name := name) else m]
  {
  }

  /** seedFromSnapshot: a directory that already holds data is left alone; otherwise the joiner's own name
      is filled in and the snapshot restored. */
  method SeedFromSnapshot(add: AddResult, selfName: string, file: seq<Byte>, dir: DataDir, hash: Hash, open: seq<Byte> -> Db, fault: Fault)
    returns (outcome: SeedOutcome)
    modifies dir
    ensures outcome == Skipped <==> !old(dir.Empty())
    ensures outcome == Skipped ==> unchanged(dir)
    ensures outcome == Seeded(Restored) ==> exists payload, members ::
      && Sealed(file, payload, hash)
      && ClusterOf(members) == Seed(ClusterOf(add.members), add.selfID, selfName)
      && SeedsFrom(dir, RestoreConfig(selfName, add.selfID, add.clusterID, members), open(payload))
    ensures outcome == Seeded(Restored) <==>
      && old(dir.Empty()) && add.selfID != 0 && add.clusterID != 0 && fault == NoFault
      && exists payload :: Sealed(file, payload, hash)
    ensures outcome.Seeded? ==>
      && outcome.err == RestoreOutcome(add.selfID, add.clusterID, true, file, hash, fault)
      && dir.Next() == NextAfter(outcome.err)
  {
    if !dir.Empty() { return Skipped; }
    var members := FillName(add.members, add.selfID, selfName);
    hide ClusterOf, Seed, Sealed, RestoreOutcome, SeedsFrom;
    var manager := new Manager();
    var cfg := RestoreConfig(selfName, add.selfID, add.clusterID, members);
    var err := manager.Restore(cfg, file, dir, hash, open, fault);
    return Seeded(err);
  }

  /** The seeded directory replays like the leader: a directory restored, with the joiner's name filled in,
      from the list reported at log index l and the backend of index s holds a raft snapshot that, replayed
      with the log from the snapshot's own index on, agrees with the leader at every later index exactly when
      the window between list and snapshot is quiet. */
  lemma SeededDirectoryReplays(dir: DataDir, cfg: RestoreConfig, source: Db, log: seq<Entry>, l: nat, infos: seq<MemberInfo>)
    requires SeedsFrom(dir, cfg, source) && ClusterOf(cfg.members) == Seed(ClusterOf(infos), cfg.selfID, cfg.name)
    requires l <= source.index <= |log| && FreshAdds(log, l, source.index) && Lists(infos, At(log[..l]))
    ensures var snap := dir.snap.value;
      && snap.index == dir.wal.value.commit == dir.db.value.index == source.index
      && snap.members == dir.db.value.members
      && (forall id :: id in snap.members <==> id in At(log[..l]))
      && (forall id :: id in snap.members ==>
            snap.members[id] == if id == cfg.selfID then At(log[..l])[id].(name := cfg.name) else At(log[..l])[id])
      && ((forall t :: snap.index <= t <= |log| ==>
             Agree(Replay(snap.members, log[snap.index..t]), At(log[..t]), cfg.selfID))
          <==> QuietWindow(log, l, snap.index, cfg.selfID))
  {
    ListedCluster(infos, At(log[..l]));
    SeedReplays(log, l, source.index, cfg.selfID, cfg.name);
  }

  /** A retry after a first attempt in an empty directory: the handle may be used again, but the directory is
      seeded again exactly when the first attempt wrote nothing, which is when an ID was missing, the snapshot
      could not be opened, or it was too short to hold a digest. Otherwise the retry boots the half-written log,
      or starts over the unseeded directory. */
  method RetryAfterFailedSeed(add: AddResult, again: AddResult, name: string, file: seq<Byte>, file': seq<Byte>, hash: Hash,
                              open: seq<Byte> -> Db, fault: Fault)
    returns (first: SeedOutcome, next: NextJoin, second: SeedOutcome)
    ensures first == Seeded(RestoreOutcome(add.selfID, add.clusterID, true, file, hash, fault))
    ensures next == NextAfter(first.err)
    ensures second.Seeded? <==> add.selfID == 0 || add.clusterID == 0 || fault == OpenSource || |file| < HASH_SIZE
    ensures second == if next == Seeds then Seeded(RestoreOutcome(again.selfID, again.clusterID, true, file', hash, NoFault))
                      else Skipped
  {
    LeavesCleanIff(add.selfID, add.clusterID, file, hash, fault);
    hide RestoreOutcome, Sealed, Seed, ClusterOf, SeedsFrom;
    var dir := new DataDir;
    dir.snapDir, dir.walDir := false, false;
    first := SeedFromSnapshot(add, name, file, dir, hash, open, fault);
    next := dir.Next();
    second := SeedFromSnapshot(again, name, file', dir, hash, open, NoFault);
  }

  /** A snapshot of 33 zero bytes: long enough to start writing, too odd to hold a digest. The next join finds
      a directory that it neither seeds nor boots a log from. */
  lemma HalfSeededWitness(hash: Hash)
    ensures var file: seq<Byte> := seq(33, _ => 0);
      && RestoreOutcome(1, 1, true, file, hash, NoFault) == BadCopy(MissingHash)
      && NextAfter(BadCopy(MissingHash)) == SkipsSeed
  {
  }

  /** A log that cannot be completed is found, and booted, by the next join. */
  lemma HalfLoggedWitness(payload: seq<Byte>, hash: Hash)
    requires |payload| % 512 == 0
    ensures var file := payload + hash(payload);
      && RestoreOutcome(1, 1, true, file, hash, WriteSnapshot) == Failed(WriteSnapshot)
      && NextAfter(Failed(WriteSnapshot)) == BootsWal
  {
    assert Sealed(payload + hash(payload), payload, hash);
    RestoredIff(1, 1, true, payload + hash(payload), hash, WriteSnapshot);
    hide Sealed, RestoreOutcome;
  }
}

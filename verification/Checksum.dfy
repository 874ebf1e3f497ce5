/** The snapshot file and its integrity trailer (v0alpha0/snapshot/snapshot.go, copyAndVerifyDB). */
module Checksum {

  newtype Byte = b: int | 0 <= b < 256

  const HASH_SIZE := 32

  /** SHA-256, of which only the digest's length is assumed. */
  type Hash = h: seq<Byte> -> seq<Byte> | forall x :: |h(x)| == HASH_SIZE witness (x => seq(HASH_SIZE, _ => 0))

  datatype CopyError = NoError | ShortSource | MissingHash | HashMismatch

  predicate HasChecksum(n: nat) {
    n % 512 == HASH_SIZE
  }

  /** An open file: its bytes and the offset of the next read or write. */
  class File {
    var data: seq<Byte>
    var pos: nat

    constructor (data: seq<Byte>)
      ensures this.data == data && pos == 0
    {
      this.data, pos := data, 0;
    }

    /** Seek relative to the end; fails before the start of the file. */
    method SeekEnd(back: nat) returns (ok: bool)
      modifies `pos
      ensures ok <==> back <= |data|
      ensures pos == if ok then |data| - back else old(pos)
    {
      ok := back <= |data|;
      if ok { pos := |data| - back; }
    }

    method Rewind()
      modifies `pos
      ensures pos == 0
    {
      pos := 0;
    }

    method Read(n: nat) returns (bytes: seq<Byte>)
      requires pos + n <= |data|
      modifies `pos
      ensures bytes == data[old(pos)..old(pos) + n] && pos == old(pos) + n
    {
      bytes := data[pos..pos + n];
      pos := pos + n;
    }

    /** io.Copy from another file: overwrites from the offset on and leaves what lies beyond. */
    method CopyFrom(src: File)
      requires src != this && src.pos <= |src.data| && pos <= |data|
      modifies this, src`pos
      ensures data == old(data[..pos]) + old(src.data[src.pos..]) + Beyond(old(data), old(pos) + |src.data| - old(src.pos))
      ensures src.pos == |src.data| && pos == old(pos) + |src.data| - old(src.pos)
    {
      var bytes := src.data[src.pos..];
      data := data[..pos] + bytes + Beyond(data, pos + |bytes|);
      pos := pos + |bytes|;
      src.pos := |src.data|;
    }

    method Truncate(n: nat)
      requires n <= |data|
      modifies `data
      ensures data == old(data)[..n]
    {
      data := data[..n];
    }
  }

  function Beyond(data: seq<Byte>, n: nat): seq<Byte> {
    if n <= |data| then data[n..] else []
  }

  /** The output file once the source is copied over what it held before. */
  function Written(file: seq<Byte>, stale: seq<Byte>): seq<Byte> {
    file + Beyond(stale, |file|)
  }

  lemma FromStart(file: seq<Byte>, stale: seq<Byte>)
    ensures stale[..0] + file[0..] + Beyond(stale, 0 + |file| - 0) == Written(file, stale)
  {
    assert stale[..0] + file[0..] == file;
  }

  /** The digest at the source's end, read before the whole source is copied. */
  method CopySource(src: File, db: File) returns (ok: bool, sha: seq<Byte>)
    requires src != db && db.pos == 0
    modifies src`pos, db
    ensures ok <==> |src.data| >= HASH_SIZE
    ensures ok ==> sha == src.data[|src.data| - HASH_SIZE..] && db.data == Written(src.data, old(db.data))
    ensures !ok ==> db.data == old(db.data)
  {
    sha := [];
    ok := src.SeekEnd(HASH_SIZE);
    if ok {
      sha := src.Read(HASH_SIZE);
      src.Rewind();
      db.CopyFrom(src);
      FromStart(src.data, old(db.data));
      hide Written, Beyond;
    }
  }

  /** The output file without its trailer, if it has one. */
  function Trimmed(written: seq<Byte>): seq<Byte> {
    if HasChecksum(|written|) && |written| >= HASH_SIZE then written[..|written| - HASH_SIZE] else written
  }

  lemma WrittenLength(file: seq<Byte>, stale: seq<Byte>)
    ensures |Written(file, stale)| >= |file|
  {
  }

  /** How the copy ends over what the output held: the trailer is looked for at the end of what the output
      then holds, since it is not truncated when it is opened. */
  function CopyOver(file: seq<Byte>, stale: seq<Byte>, skipHashCheck: bool, hash: Hash): CopyError {
    var written := Written(file, stale);
    if |file| < HASH_SIZE then ShortSource
    else if skipHashCheck then NoError
    else if !HasChecksum(|written|) then MissingHash
    else if hash(Trimmed(written)) != file[|file| - HASH_SIZE..] then HashMismatch
    else NoError
  }

  /** Which files each outcome is for. A file shorter than a digest is refused in any case, and with the check
      skipped nothing else is. Without, what is then in the output must be whole sectors and a digest, and the
      sectors' digest must be the file's last 32 bytes. */
  lemma CopyOverIff(file: seq<Byte>, stale: seq<Byte>, skipHashCheck: bool, hash: Hash)
    ensures var err := CopyOver(file, stale, skipHashCheck, hash);
      var out := file + (if |file| < |stale| then stale[|file|..] else []);
      && (err == ShortSource <==> |file| < 32)
      && (skipHashCheck ==> (err == NoError <==> |file| >= 32))
      && (err == MissingHash <==> !skipHashCheck && |file| >= 32 && |out| % 512 != 32)
      && (err == HashMismatch <==> !skipHashCheck && |file| >= 32 && |out| % 512 == 32
                                   && hash(out[..|out| - 32]) != file[|file| - 32..])
  {
    hide Written;
    WrittenIs(file, stale);
  }

  lemma WrittenIs(file: seq<Byte>, stale: seq<Byte>)
    ensures Written(file, stale) == file + (if |file| < |stale| then stale[|file|..] else [])
  {
  }

  /** copyAndVerifyDB, with the output file opened without truncation as the code opens it. */
  method CopyAndVerifyDB(src: File, db: File, skipHashCheck: bool, hash: Hash) returns (err: CopyError)
    requires src != db && db.pos == 0
    modifies src`pos, db
    ensures err == CopyOver(src.data, old(db.data), skipHashCheck, hash)
    ensures db.data == if err == ShortSource then old(db.data) else Trimmed(Written(src.data, old(db.data)))
  {
    WrittenLength(src.data, db.data);
    hide Written, HasChecksum, Trimmed;
    var ok, sha := CopySource(src, db);
    if !ok { return ShortSource; }
    var hasHash := TruncateDigest(db);
    if !hasHash && !skipHashCheck { return MissingHash; }
    if hasHash && !skipHashCheck {
      db.Rewind();
      var dbsha := hash(db.data);
      if sha != dbsha { return HashMismatch; }
    }
    return NoError;
  }

  /** The trailer is cut off if the length says that there is one. */
  method TruncateDigest(db: File) returns (hasHash: bool)
    requires |db.data| >= HASH_SIZE
    modifies db
    ensures hasHash == HasChecksum(|old(db.data)|) && db.data == Trimmed(old(db.data))
  {
    var sought := db.SeekEnd(0);
    var off := db.pos;
    hasHash := HasChecksum(off);
    if hasHash { db.Truncate(off - HASH_SIZE); }
  }

  /** A payload of whole sectors followed by its digest. */
  ghost predicate Sealed(file: seq<Byte>, payload: seq<Byte>, hash: Hash) {
    |payload| % 512 == 0 && file == payload + hash(payload)
  }

  ghost predicate IsSealed(file: seq<Byte>, hash: Hash) {
    exists payload :: Sealed(file, payload, hash)
  }

  /** With hash checking on and a fresh output file, exactly the sealed files are accepted, and what is
      left on disk is exactly the payload. */
  method RestoreFresh(file: seq<Byte>, hash: Hash) returns (err: CopyError, disk: seq<Byte>)
    ensures err == NoError <==> exists payload :: Sealed(file, payload, hash)
    ensures err == NoError ==> Sealed(file, disk, hash)
    ensures err == CopyOutcome(file, hash)
  {
    var src := new File(file);
    var db := new File([]);
    err := CopyAndVerifyDB(src, db, false, hash);
    disk := db.data;
    FreshOutcome(file, hash);
    AcceptsSealed(file, hash);
    hide Sealed, HasChecksum, Written, Trimmed, CopyOver;
  }

  /** How the copy of a file to a fresh output ends. */
  function CopyOutcome(file: seq<Byte>, hash: Hash): (err: CopyError)
    ensures err == NoError <==> Accepts(file, hash)
  {
    if |file| < HASH_SIZE then ShortSource
    else if !HasChecksum(|file|) then MissingHash
    else if hash(Trimmed(file)) != file[|file| - HASH_SIZE..] then HashMismatch
    else NoError
  }

  lemma FreshOutcome(file: seq<Byte>, hash: Hash)
    ensures CopyOver(file, [], false, hash) == CopyOutcome(file, hash)
    ensures CopyOutcome(file, hash) != ShortSource ==> Trimmed(Written(file, [])) == Trimmed(file)
  {
    FreshWritten(file);
    hide Written, HasChecksum, Trimmed;
  }

  lemma FreshWritten(file: seq<Byte>)
    ensures Written(file, []) == file
  {
    assert file == [] || Beyond([], |file|) == [];
  }

  /** The acceptance condition of the copy, read as a statement about the file. */
  lemma AcceptsSealed(file: seq<Byte>, hash: Hash)
    ensures Accepts(file, hash) <==> exists payload :: Sealed(file, payload, hash)
    ensures Accepts(file, hash) ==> Sealed(file, Trimmed(file), hash)
  {
    if Accepts(file, hash) { AcceptedParts(file, hash); }
    if payload :| Sealed(file, payload, hash) { SealedParts(file, payload, hash); }
    hide Accepts, Sealed;
  }

  lemma Sectors(n: nat)
    ensures HasChecksum(n + HASH_SIZE) <==> n % 512 == 0
  {
  }

  lemma AcceptedParts(file: seq<Byte>, hash: Hash)
    requires Accepts(file, hash)
    ensures Sealed(file, Trimmed(file), hash)
  {
    Sectors(|file| - HASH_SIZE);
    hide HasChecksum;
    assert file == Trimmed(file) + file[|file| - HASH_SIZE..];
  }

  lemma SealedParts(file: seq<Byte>, payload: seq<Byte>, hash: Hash)
    requires Sealed(file, payload, hash)
    ensures Accepts(file, hash) && Trimmed(file) == payload
  {
    Sectors(|payload|);
    hide HasChecksum;
    assert |hash(payload)| == HASH_SIZE;
    assert file[..|payload|] == payload && file[|payload|..] == hash(payload);
  }

  predicate Accepts(file: seq<Byte>, hash: Hash) {
    |file| >= HASH_SIZE && HasChecksum(|file|) && hash(Trimmed(file)) == file[|file| - HASH_SIZE..]
  }

  /** Over an output no longer than the file, a copy is accepted exactly if the file is sealed. */
  lemma ShortOutputIsFresh(file: seq<Byte>, stale: seq<Byte>, hash: Hash)
    requires |stale| <= |file|
    ensures Written(file, stale) == file
    ensures CopyOver(file, stale, false, hash) == NoError <==> exists payload :: Sealed(file, payload, hash)
  {
    AcceptsSealed(file, hash);
    assert Beyond(stale, |file|) == [];
    hide Sealed, HasChecksum, Trimmed;
  }

  /** Over a longer one, a sealed file may be rejected: one byte left over is enough. */
  lemma StaleOutputWitness(payload: seq<Byte>, hash: Hash)
    requires |payload| % 512 == 0
    ensures var file := payload + hash(payload);
      && Sealed(file, payload, hash)
      && Written(file, file + [0]) == file + [0]
      && CopyOver(file, file + [0], false, hash) == MissingHash
  {
    var file := payload + hash(payload);
    assert Beyond(file + [0], |file|) == [0];
    StaleLength(|payload|);
  }

  lemma StaleLength(n: nat)
    requires n % 512 == 0
    ensures !HasChecksum(n + HASH_SIZE + 1)
  {
  }
}

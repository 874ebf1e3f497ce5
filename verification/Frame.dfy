/** The body of a successful join response: a length-prefixed prelude, then the snapshot stream
    (v0alpha0/join/join.go, Server.add and Client.Add). */
module Frame {
  import opened Text
  import opened Checksum
  import opened Restore

  const U32 := 0x1_0000_0000

  /** uint32(n), big-endian. */
  function PutUint32(n: nat): (bytes: seq<Byte>)
    ensures |bytes| == 4
  {
    [(n / 0x100_0000 % 256) as Byte, (n / 0x1_0000 % 256) as Byte, (n / 0x100 % 256) as Byte, (n % 256) as Byte]
  }

  function Uint32(bytes: seq<Byte>): nat
    requires |bytes| == 4
  {
    ((bytes[0] as int * 256 + bytes[1] as int) * 256 + bytes[2] as int) * 256 + bytes[3] as int
  }

  /** Writing a length and reading it back keeps it modulo 2^32. */
  lemma Uint32RoundTrip(n: nat)
    ensures Uint32(PutUint32(n)) == n % U32
  {
    var a, b, c := n / 256, n / 0x1_0000, n / 0x100_0000;
    assert b == a / 256 && c == b / 256;
    assert n == a * 256 + n % 256 && a == b * 256 + a % 256 && b == c * 256 + b % 256;
    var top := c / 256;
    assert c == top * 256 + c % 256;
    assert n == top * U32 + Uint32(PutUint32(n));
    assert 0 <= Uint32(PutUint32(n)) < U32;
  }

  /** The most significant byte comes first. */
  lemma BigEndian()
    ensures PutUint32(0x0102_0304) == [1, 2, 3, 4]
  {
  }

  /** Four bytes read as a length and written again are the same bytes. */
  lemma Uint32Bytes(bytes: seq<Byte>)
    requires |bytes| == 4
    ensures Uint32(bytes) < U32 && PutUint32(Uint32(bytes)) == bytes
  {
    var a, b, c, d := bytes[0] as int, bytes[1] as int, bytes[2] as int, bytes[3] as int;
    Digit(a, b);
    Digit(a * 256 + b, c);
    Digit((a * 256 + b) * 256 + c, d);
    var n := Uint32(bytes);
    assert n / 0x1_0000 == n / 256 / 256 && n / 0x100_0000 == n / 256 / 256 / 256;
  }

  lemma Digit(m: nat, d: nat)
    requires d < 256
    ensures (m * 256 + d) / 256 == m && (m * 256 + d) % 256 == d
  {
  }

  /** The prelude's encoding, JSON in the code: total, and undone by its decoder. */
  type Encoder = AddResult -> seq<Byte>
  type Decoder = seq<Byte> -> Option<AddResult>

  ghost predicate Codec(enc: Encoder, dec: Decoder) {
    forall p :: dec(enc(p)) == Some(p)
  }

  /** No proper prefix of an encoding decodes, as for a JSON object. */
  ghost predicate PrefixFree(enc: Encoder, dec: Decoder) {
    forall p, k :: 0 <= k < |enc(p)| ==> dec(enc(p)[..k]) == None
  }

  /** The server's half: three writes to the response. */
  method WriteResponse(p: AddResult, snapshot: seq<Byte>, enc: Encoder) returns (body: seq<Byte>)
    ensures body == Response(enc(p), snapshot)
  {
    var prelude := enc(p);
    body := PutUint32(|prelude|);
    body := body + prelude;
    body := body + snapshot;
  }

  function Response(prelude: seq<Byte>, snapshot: seq<Byte>): seq<Byte> {
    PutUint32(|prelude|) + prelude + snapshot
  }

  datatype ReadResult = Read(p: AddResult, snapshot: seq<Byte>) | NoLength | ShortPrelude | BadPrelude

  /** A response body being read. */
  class Body {
    const data: seq<Byte>
    var pos: nat

    constructor (data: seq<Byte>)
      ensures this.data == data && pos == 0
    {
      this.data, pos := data, 0;
    }

    /** io.ReadFull: all n bytes or an error. */
    method ReadFull(n: nat) returns (ok: bool, bytes: seq<Byte>)
      requires pos <= |data|
      modifies this
      ensures ok <==> old(pos) + n <= |data|
      ensures ok ==> bytes == data[old(pos)..old(pos) + n] && pos == old(pos) + n
      ensures !ok ==> pos == |data|
    {
      ok, bytes := pos + n <= |data|, [];
      if ok { bytes, pos := data[pos..pos + n], pos + n; } else { pos := |data|; }
    }
  }

  /** What the client makes of a whole body: the prelude's length, the prelude, and the rest as the snapshot. */
  function Outcome(body: seq<Byte>, dec: Decoder): ReadResult {
    if |body| < 4 then NoLength
    else
      var end := 4 + Uint32(body[..4]);
      if |body| < end then ShortPrelude
      else match dec(body[4..end]) case Some(p) => Read(p, body[end..]) case None => BadPrelude
  }

  /** The client's half; what is left of the body is the snapshot. */
  method ReadResponse(body: seq<Byte>, dec: Decoder) returns (r: ReadResult)
    ensures r == Outcome(body, dec)
  {
    var stream := new Body(body);
    var ok, lenbuf := stream.ReadFull(4);
    if !ok { return NoLength; }
    assert lenbuf == body[..4];
    var prelude;
    ok, prelude := stream.ReadFull(Uint32(lenbuf));
    if !ok { return ShortPrelude; }
    match dec(prelude)
    case None => return BadPrelude;
    case Some(p) => return Read(p, body[stream.pos..]);
  }

  lemma ResponseParts(prelude: seq<Byte>, snapshot: seq<Byte>)
    ensures var body := Response(prelude, snapshot);
      && |body| >= 4 + |prelude| && Uint32(body[..4]) == |prelude| % U32
      && body[4..4 + |prelude|] == prelude && body[4 + |prelude|..] == snapshot
  {
    var body := Response(prelude, snapshot);
    Uint32RoundTrip(|prelude|);
    assert body[..4] == PutUint32(|prelude|);
    hide PutUint32, Uint32;
  }

  /** A prelude and a snapshot that make up the body. */
  ghost predicate Splits(body: seq<Byte>, prelude: seq<Byte>, snapshot: seq<Byte>) {
    |prelude| < U32 && body == Response(prelude, snapshot)
  }

  lemma SplitOutcome(body: seq<Byte>, prelude: seq<Byte>, snapshot: seq<Byte>, dec: Decoder)
    requires Splits(body, prelude, snapshot)
    ensures Outcome(body, dec) == match dec(prelude) case Some(p) => Read(p, snapshot) case None => BadPrelude
  {
    ResponseParts(prelude, snapshot);
    hide Response, Uint32;
  }

  lemma SplitAt(body: seq<Byte>)
    requires |body| >= 4 && |body| >= 4 + Uint32(body[..4])
    ensures var end := 4 + Uint32(body[..4]); Splits(body, body[4..end], body[end..])
  {
    Uint32Bytes(body[..4]);
    hide Uint32, PutUint32;
  }

  lemma ReadSplits(body: seq<Byte>, dec: Decoder) returns (prelude: seq<Byte>, rest: seq<Byte>)
    requires Outcome(body, dec).Read? || Outcome(body, dec).BadPrelude?
    ensures Splits(body, prelude, rest)
  {
    hide Uint32, Splits;
    SplitAt(body);
    var end := 4 + Uint32(body[..4]);
    prelude, rest := body[4..end], body[end..];
  }

  /** The client accepts exactly the bodies a server can have written, with the prelude and the snapshot that
      went into them: an answer is read if and only if its prelude decodes to it. */
  lemma ReadIff(body: seq<Byte>, dec: Decoder, p: AddResult, snapshot: seq<Byte>)
    ensures Outcome(body, dec) == Read(p, snapshot)
            <==> exists prelude :: Splits(body, prelude, snapshot) && dec(prelude) == Some(p)
    ensures Outcome(body, dec) == BadPrelude
            <==> exists prelude, rest :: Splits(body, prelude, rest) && dec(prelude) == None
  {
    hide Splits, Outcome;
    if Outcome(body, dec).Read? || Outcome(body, dec).BadPrelude? {
      var prelude, rest := ReadSplits(body, dec);
      SplitOutcome(body, prelude, rest, dec);
    }
    if prelude :| Splits(body, prelude, snapshot) && dec(prelude) == Some(p) {
      SplitOutcome(body, prelude, snapshot, dec);
    }
    if prelude, rest :| Splits(body, prelude, rest) && dec(prelude) == None {
      SplitOutcome(body, prelude, rest, dec);
    }
  }

  /** What the server writes, the client reads back, exactly when the encoded prelude is shorter than 2^32
      bytes: a longer one's length wraps around. */
  lemma RoundTrip(p: AddResult, snapshot: seq<Byte>, enc: Encoder, dec: Decoder)
    requires Codec(enc, dec) && PrefixFree(enc, dec)
    ensures Outcome(Response(enc(p), snapshot), dec) == Read(p, snapshot) <==> |enc(p)| < U32
  {
    var body := Response(enc(p), snapshot);
    ResponseParts(enc(p), snapshot);
    hide Response, Uint32;
    var n := |enc(p)| % U32;
    assert body[4..4 + n] == body[4..4 + |enc(p)|][..n];
    if |enc(p)| >= U32 { assert n < |enc(p)|; }
  }

  /** A response cut before the prelude's end is rejected. */
  lemma CutRejected(p: AddResult, snapshot: seq<Byte>, enc: Encoder, dec: Decoder, cut: nat)
    requires |enc(p)| < U32 && cut < 4 + |enc(p)|
    ensures |Response(enc(p), snapshot)| >= cut
    ensures Outcome(Response(enc(p), snapshot)[..cut], dec) == if cut < 4 then NoLength else ShortPrelude
  {
    var body := Response(enc(p), snapshot);
    ResponseParts(enc(p), snapshot);
    hide Response, Uint32;
    assert cut >= 4 ==> body[..cut][..4] == body[..4];
  }

  lemma CutOutcome(p: AddResult, snapshot: seq<Byte>, prelude: seq<Byte>, dec: Decoder, cut: nat)
    requires dec(prelude) == Some(p) && |prelude| < U32 && cut <= |snapshot|
    ensures var end := 4 + |prelude|;
      && |Response(prelude, snapshot)| >= end + cut
      && Outcome(Response(prelude, snapshot)[..end + cut], dec) == Read(p, snapshot[..cut])
  {
    CutParts(prelude, snapshot, cut);
    hide Response, Uint32;
    var end, sent := 4 + |prelude|, Response(prelude, snapshot)[..4 + |prelude| + cut];
    assert |sent| == end + cut && 4 + Uint32(sent[..4]) == end;
  }

  /** A response cut inside the snapshot passes the frame, with the snapshot cut; the restore then accepts it
      only if what is left is itself a sealed file. */
  lemma CutSnapshot(p: AddResult, snapshot: seq<Byte>, enc: Encoder, dec: Decoder, hash: Hash, cut: nat)
    requires Codec(enc, dec) && |enc(p)| < U32 && cut <= |snapshot|
    ensures var end := 4 + |enc(p)|;
      && |Response(enc(p), snapshot)| >= end + cut
      && Outcome(Response(enc(p), snapshot)[..end + cut], dec) == Read(p, snapshot[..cut])
    ensures CopyOutcome(snapshot[..cut], hash) == NoError <==> IsSealed(snapshot[..cut], hash)
  {
    hide *;
    Decodes(enc, dec, p);
    CutOutcome(p, snapshot, enc(p), dec, cut);
    SealedOutcome(snapshot[..cut], hash);
  }

  lemma Decodes(enc: Encoder, dec: Decoder, p: AddResult)
    requires Codec(enc, dec)
    ensures dec(enc(p)) == Some(p)
  {
  }

  lemma SealedOutcome(file: seq<Byte>, hash: Hash)
    ensures CopyOutcome(file, hash) == NoError <==> IsSealed(file, hash)
  {
    AcceptsSealed(file, hash);
    hide Accepts, Sealed, CopyOutcome;
  }

  lemma CutParts(prelude: seq<Byte>, snapshot: seq<Byte>, cut: nat)
    requires |prelude| < U32 && cut <= |snapshot|
    ensures var end, body := 4 + |prelude|, Response(prelude, snapshot);
      && |body| >= end + cut
      && var sent := body[..end + cut];
         Uint32(sent[..4]) == |prelude| && sent[4..end] == prelude && sent[end..] == snapshot[..cut]
  {
    ResponseParts(prelude, snapshot);
    hide Response, Uint32;
    var end, body := 4 + |prelude|, Response(prelude, snapshot);
    var sent := body[..end + cut];
    assert sent[..4] == body[..4] && sent[4..end] == body[4..end] && sent[end..] == body[end..][..cut];
  }
}

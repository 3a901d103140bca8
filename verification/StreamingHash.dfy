/**
 The content hasher: read loops over a reused buffer, fed by a file whose reads may come back
 short and may fail.  The digest is any function of the absorbed bytes.
 */
module StreamingHash {
  import opened Prelude
  import opened Hex

  const CHUNK_SIZE: nat := 0x1_0000
  const REGION: nat := 0x1_0000             // prefix and suffix length
  const THRESHOLD: nat := 2 * REGION        // files up to this size are fingerprinted whole
  const MMAP_MIN_SIZE: nat := 0x4000
  const RAYON_MIN_SIZE: nat := 0x10_0000

  datatype IoError = IoError

  type Digest = seq<Byte> -> Hash

  // A file whose bytes stay fixed while it is read.  `faulted` records that an I/O call failed.
  class File {
    const content: seq<Byte>
    var pos: nat
    var faulted: bool

    constructor (content: seq<Byte>)
      ensures this.content == content && pos == 0 && !faulted
    {
      this.content, pos, faulted := content, 0, false;
    }

    method Open() returns (ok: bool)
      modifies this
      ensures pos == 0
      ensures faulted == (old(faulted) || !ok)
    {
      ok := *;
      pos, faulted := 0, faulted || !ok;
    }

    // One read(2): any non-zero number of the bytes that are left, zero only at the end.
    method Read(buf: array<Byte>, want: nat) returns (r: Result<nat, IoError>)
      requires want <= buf.Length
      modifies this, buf
      ensures faulted == (old(faulted) || r.Err?)
      ensures r.Err? ==> pos == old(pos)
      ensures r.Ok? ==>
                && r.value <= want && pos == old(pos) + r.value
                && (r.value == 0 <==> want == 0 || old(pos) >= |content|)
                && (r.value > 0 ==> pos <= |content| && buf[..r.value] == content[old(pos)..pos])
    {
      var fails: bool := *;
      if fails {
        faulted := true;
        return Err(IoError);
      }
      var left := if pos < |content| then |content| - pos else 0;
      var n := Min(want, left);
      if n > 0 {
        var short: nat :| 1 <= short <= n;
        n := short;
      }
      forall i | 0 <= i < n {
        buf[i] := content[pos + i];
      }
      pos := pos + n;
      return Ok(n);
    }

    // Seeking before the start of the file is an error.
    method SeekFromEnd(back: nat) returns (ok: bool)
      modifies this
      ensures ok ==> back <= |content| && pos == |content| - back
      ensures faulted ==> old(faulted) || !ok
      ensures old(faulted) ==> faulted
      ensures !ok ==> faulted || back > |content|
    {
      if back > |content| {
        return false;
      }
      ok := *;
      if ok {
        pos := |content| - back;
      } else {
        faulted := true;
      }
    }
  }

  class Hasher {
    var absorbed: seq<Byte>

    constructor ()
      ensures absorbed == []
    {
      absorbed := [];
    }

    method Update(buf: array<Byte>, n: nat)
      requires n <= buf.Length
      modifies this
      ensures absorbed == old(absorbed) + buf[..n]
    {
      absorbed := absorbed + buf[..n];
    }

    // Both memory-mapped updates absorb the whole file.
    method UpdateMmap(file: File) returns (ok: bool)
      modifies this, file
      ensures file.faulted == (old(file.faulted) || !ok)
      ensures ok ==> absorbed == old(absorbed) + file.content
    {
      ok := *;
      absorbed := absorbed + (if ok then file.content else []);
      file.faulted := file.faulted || !ok;
    }

    function Finalize(digest: Digest): Hash
      reads this
    {
      digest(absorbed)
    }
  }

  // The read loop shared by all streaming hashes: absorb from the current position until
  // `limit` bytes were taken or the file ends, whatever the read sizes.
  method Absorb(file: File, hasher: Hasher, buf: array<Byte>, limit: nat) returns (ok: bool)
    requires buf.Length > 0 && file.pos <= |file.content|
    modifies file, hasher, buf
    ensures file.faulted == (old(file.faulted) || !ok)
    ensures ok ==>
              var end := Min(old(file.pos) + limit, |file.content|);
              file.pos == end && hasher.absorbed == old(hasher.absorbed) + file.content[old(file.pos)..end]
  {
    ghost var start := file.pos;
    ghost var before := hasher.absorbed;
    ghost var faulted := file.faulted;
    var remaining := limit;
    while remaining > 0
      invariant start <= file.pos <= |file.content|
      invariant remaining == limit - (file.pos - start)
      invariant hasher.absorbed == before + file.content[start..file.pos]
      invariant file.faulted == faulted
      decreases |file.content| - file.pos
    {
      ghost var at := file.pos;
      var r := file.Read(buf, Min(buf.Length, remaining));
      if r.Err? {
        return false;
      }
      if r.value == 0 {
        break;
      }
      hasher.Update(buf, r.value);
      assert file.content[start..at] + file.content[at..file.pos] == file.content[start..file.pos];
      remaining := remaining - r.value;
    }
    return true;
  }

  // `hash_file`: the first `cap` bytes, or everything when there is no cap (up to the u64 limit).
  method HashFile(file: File, cap: Option<nat>, digest: Digest) returns (r: Result<Hash, IoError>)
    requires !file.faulted
    requires cap.Some? ==> cap.value <= U64_MAX
    modifies file
    ensures r.Err? <==> file.faulted
    ensures r.Ok? ==>
              r.value == digest(file.content[..Min(if cap.Some? then cap.value else U64_MAX, |file.content|)])
  {
    var isOpen := file.Open();
    if !isOpen {
      return Err(IoError);
    }
    var hasher := new Hasher();
    var buf := new Byte[CHUNK_SIZE](i => 0);
    var limit := if cap.Some? then cap.value else U64_MAX;
    var ok := Absorb(file, hasher, buf, limit);
    if !ok {
      return Err(IoError);
    }
    assert hasher.absorbed == file.content[..Min(limit, |file.content|)];
    return Ok(hasher.Finalize(digest));
  }

  // What a file's fingerprint should cover: all of a small file, else its two ends.
  function FingerprintBytes(content: seq<Byte>): seq<Byte> {
    if |content| <= THRESHOLD then content
    else content[..REGION] + content[|content| - REGION..]
  }

  // What the code covers when told the size is `declared`; None when the seek must fail.
  function CoveredBytes(content: seq<Byte>, declared: nat): Option<seq<Byte>> {
    if declared <= THRESHOLD then Some(content[..Min(U64_MAX, |content|)])
    else if |content| < REGION then None
    else Some(content[..REGION] + content[|content| - REGION..])
  }

  method QuickHashPrefixSuffix(file: File, declared: nat, digest: Digest) returns (r: Result<Hash, IoError>)
    requires !file.faulted
    modifies file
    ensures r.Err? <==> file.faulted || CoveredBytes(file.content, declared).None?
    ensures r.Ok? ==> r.value == digest(CoveredBytes(file.content, declared).value)
  {
    if declared <= THRESHOLD {
      r := HashFile(file, None, digest);
      return;
    }
    var isOpen := file.Open();
    if !isOpen {
      return Err(IoError);
    }
    var hasher := new Hasher();
    var buf := new Byte[REGION](i => 0);
    var ok := Absorb(file, hasher, buf, REGION);
    if !ok {
      return Err(IoError);
    }
    ok := file.SeekFromEnd(REGION);
    if !ok {
      return Err(IoError);
    }
    ok := Absorb(file, hasher, buf, REGION);
    if !ok {
      return Err(IoError);
    }
    assert hasher.absorbed == [] + file.content[0..REGION] + file.content[|file.content| - REGION..|file.content|];
    assert file.content[0..REGION] == file.content[..REGION];
    assert hasher.absorbed == CoveredBytes(file.content, declared).value;
    return Ok(hasher.Finalize(digest));
  }

  // Exactly when a size measured earlier still gives the right fingerprint: it must fall on
  // the same side of the threshold as the file's real size, or the file must be exactly at it.
  lemma DeclaredSizeExact(content: seq<Byte>, declared: nat)
    requires |content| <= U64_MAX
    ensures CoveredBytes(content, declared) == Some(FingerprintBytes(content))
       <==> ((declared <= THRESHOLD <==> |content| <= THRESHOLD) || |content| == THRESHOLD)
  {
    if |content| == THRESHOLD {
      assert content[..REGION] + content[|content| - REGION..] == content;
    }
    assert content[..|content|] == content;
  }

  // The two regions of a large file do not overlap, and a fingerprint never covers more than
  // 128 KiB: equal fingerprint input means equal ends, and equal contents for small files.
  lemma FingerprintCoverage(a: seq<Byte>, b: seq<Byte>)
    requires FingerprintBytes(a) == FingerprintBytes(b)
    ensures |FingerprintBytes(a)| == Min(|a|, 131072)
    ensures |a| < 131072 ==> a == b
    ensures |a| > 131072 && |b| > 131072 ==>
              && 65536 < |a| - 65536
              && a[..65536] == b[..65536] && a[|a| - 65536..] == b[|b| - 65536..]
  {
    if |a| > THRESHOLD && |b| > THRESHOLD {
      assert a[..REGION] == FingerprintBytes(a)[..REGION];
      assert b[..REGION] == FingerprintBytes(b)[..REGION];
      assert a[|a| - REGION..] == FingerprintBytes(a)[REGION..];
      assert b[|b| - REGION..] == FingerprintBytes(b)[REGION..];
    }
  }

  datatype DeviceKind = Hdd | Ssd | Unknown
  datatype Regime = Streamed | Mapped | MappedParallel

  // Every dispatch branch hashes the whole file; parallel mapping is never chosen for spinning
  // disks or below 1 MiB, and mapping never below 16 KiB.
  method DispatchHash(file: File, sizeBytes: nat, kind: DeviceKind, digest: Digest)
    returns (r: Result<Hash, IoError>, regime: Regime)
    requires !file.faulted
    modifies file
    ensures r.Err? <==> file.faulted
    ensures r.Ok? && |file.content| <= U64_MAX ==> r.value == digest(file.content)
    ensures regime.Streamed? <==> sizeBytes < 16384
    ensures regime.MappedParallel? <==> sizeBytes >= 1048576 && !kind.Hdd?
  {
    if sizeBytes < MMAP_MIN_SIZE {
      r := HashFile(file, None, digest);
      assert |file.content| <= U64_MAX ==> file.content[..|file.content|] == file.content;
      return r, Streamed;
    }
    var hasher := new Hasher();
    var ok := hasher.UpdateMmap(file);
    assert [] + file.content == file.content;
    r := if ok then Ok(hasher.Finalize(digest)) else Err(IoError);
    if kind.Hdd? {
      return r, Mapped;
    }
    if sizeBytes < RAYON_MIN_SIZE {
      return r, Mapped;
    }
    return r, MappedParallel;
  }
}

// The key file: envelope, parser and atomic replacement
// (src/security/DpapiSecretStore.cpp).
module KeyFile {

  import opened Wrappers

  const MAGIC: seq<byte> := [83, 83, 84, 75] // "SSTK"
  const FORMAT_VERSION: nat := 1
  const HEADER_SIZE: nat := 12
  const MAX_BLOB_BYTES: nat := 0x10_0000

  // --- Little-endian fields ---------------------------------------------------------------

  method StoreU16(v: seq<byte>, value: nat) returns (r: seq<byte>)
    requires value < 0x1_0000
    ensures r == v + U16(value)
  {
    r := v + [(value % 256) as byte];
    r := r + [(value / 256 % 256) as byte];
  }

  method StoreU32(v: seq<byte>, value: nat) returns (r: seq<byte>)
    requires value < 0x1_0000_0000
    ensures r == v + U32(value)
  {
    r := v + [(value % 256) as byte];
    r := r + [(value / 0x100 % 256) as byte];
    r := r + [(value / 0x1_0000 % 256) as byte];
    r := r + [(value / 0x100_0000 % 256) as byte];
  }

  function U16(value: nat): seq<byte> {
    [(value % 256) as byte, (value / 256 % 256) as byte]
  }

  function U32(value: nat): seq<byte> {
    [(value % 256) as byte, (value / 0x100 % 256) as byte,
     (value / 0x1_0000 % 256) as byte, (value / 0x100_0000 % 256) as byte]
  }

  function LoadU16(p: seq<byte>): nat
    requires |p| >= 2
  {
    p[0] as nat + p[1] as nat * 0x100
  }

  function LoadU32(p: seq<byte>): nat
    requires |p| >= 4
  {
    p[0] as nat + p[1] as nat * 0x100 + p[2] as nat * 0x1_0000 + p[3] as nat * 0x100_0000
  }

  lemma LoadStored(v: nat)
    requires v < 0x1_0000_0000
    ensures LoadU32(U32(v)) == v
    ensures v < 0x1_0000 ==> LoadU16(U16(v)) == v
  {
    var q1, q2, q3 := v / 0x100, v / 0x1_0000, v / 0x100_0000;
    assert q2 == q1 / 0x100 && q3 == q2 / 0x100;
    assert v == q1 * 0x100 + v % 256 && q1 == q2 * 0x100 + q1 % 256 && q2 == q3 * 0x100 + q2 % 256;
    assert q3 < 256;
  }

  lemma StoredLoaded(p: seq<byte>)
    ensures |p| == 2 ==> U16(LoadU16(p)) == p
    ensures |p| == 4 ==> U32(LoadU32(p)) == p
  {
    if |p| == 2 {
      var v := LoadU16(p);
      assert v % 256 == p[0] as nat && v / 256 == p[1] as nat;
    }
    if |p| == 4 {
      var v := LoadU32(p);
      var q1 := p[1] as nat + p[2] as nat * 0x100 + p[3] as nat * 0x1_0000;
      var q2 := p[2] as nat + p[3] as nat * 0x100;
      assert v == q1 * 0x100 + p[0] as nat && v / 0x100 == q1;
      assert q1 == q2 * 0x100 + p[1] as nat && v / 0x1_0000 == q1 / 0x100 == q2;
      assert v / 0x100_0000 == q2 / 0x100 == p[3] as nat;
    }
  }

  // --- Envelope -------------------------------------------------------------------------------

  function Envelope(blob: seq<byte>): seq<byte> {
    MAGIC + U16(FORMAT_VERSION) + U16(0) + U32(|blob|) + blob
  }

  /** The file Store writes for a protected blob. */
  method Frame(blob: seq<byte>) returns (file: seq<byte>)
    requires 0 < |blob| <= MAX_BLOB_BYTES
    ensures file == Envelope(blob)
  {
    file := MAGIC;
    file := StoreU16(file, FORMAT_VERSION);
    file := StoreU16(file, 0);
    file := StoreU32(file, |blob|);
    file := file + blob;
  }

  /** ReadWholeFile: present, non-empty and not oversized. */
  predicate Readable(file: Option<seq<byte>>) {
    file.Some? && 0 < |file.value| <= HEADER_SIZE + MAX_BLOB_BYTES
  }

  /** The blob Load hands to the decryption, if the file is accepted. */
  function Parse(file: Option<seq<byte>>): Option<seq<byte>> {
    if !Readable(file) || |file.value| < HEADER_SIZE then None
    else
      var f := file.value;
      if f[..4] != MAGIC then None
      else if LoadU16(f[4..]) != FORMAT_VERSION then None
      else
        var blobLen := LoadU32(f[8..]);
        if blobLen == 0 || blobLen > MAX_BLOB_BYTES || |f| != HEADER_SIZE + blobLen then None
        else Some(f[HEADER_SIZE..])
  }

  function HasStoredKey(file: Option<seq<byte>>): bool {
    Readable(file) && |file.value| >= HEADER_SIZE
    && file.value[..4] == MAGIC && LoadU16(file.value[4..]) == FORMAT_VERSION
  }

  lemma EnvelopeFields(blob: seq<byte>)
    ensures var f := Envelope(blob);
            && |f| == HEADER_SIZE + |blob|
            && f[..4] == MAGIC && f[4..6] == U16(FORMAT_VERSION) && f[8..12] == U32(|blob|)
            && f[HEADER_SIZE..] == blob
  {}

  /** The file byte by byte: "SSTK", version 1, two zero bytes, the length, lowest byte first, the blob. */
  lemma EnvelopeBytes(blob: seq<byte>)
    ensures var f, n := Envelope(blob), |blob|;
            && |f| == 12 + n && f[..8] == [83, 83, 84, 75, 1, 0, 0, 0] && f[12..] == blob
            && (n < 0x1_0000_0000 ==>
                  f[8] as int + 0x100 * f[9] as int + 0x1_0000 * f[10] as int + 0x100_0000 * f[11] as int == n)
  {
    var n := |blob|;
    if n < 0x1_0000_0000 {
      LoadStored(n);
    }
    assert U16(1) == [1, 0] && U16(0) == [0, 0];
  }

  /** A blob of 1 to 2^20 bytes is recovered from its envelope; the envelope of any other is refused. */
  lemma ParseFramed(blob: seq<byte>)
    ensures Parse(Some(Envelope(blob))) == if 1 <= |blob| <= 1_048_576 then Some(blob) else None
  {
    var f := Envelope(blob);
    EnvelopeFields(blob);
    if 1 <= |blob| <= 1_048_576 {
      LoadStored(FORMAT_VERSION);
      LoadStored(|blob|);
      FieldsAt(f);
      hide LoadU16, LoadU32, U16, U32, Envelope;
    } else if blob == [] {
      LoadStored(0);
      FieldsAt(f);
    }
  }

  // A file is an envelope, its reserved bytes aside, just when its three fields say so.
  lemma EnvelopeByFields(f: seq<byte>)
    requires |f| >= HEADER_SIZE
    ensures f == Envelope(f[HEADER_SIZE..])[6 := f[6]][7 := f[7]] <==>
            f[..4] == MAGIC && f[4..6] == U16(FORMAT_VERSION) && f[8..12] == U32(|f| - HEADER_SIZE)
  {
    hide U16, U32;
    var blob := f[HEADER_SIZE..];
    var a, b := U16(FORMAT_VERSION), U32(|blob|);
    FieldSizes(FORMAT_VERSION, |blob|);
    var e := Envelope(blob)[6 := f[6]][7 := f[7]];
    assert e == MAGIC + a + [f[6], f[7]] + b + blob;
    assert f == f[..4] + f[4..6] + [f[6], f[7]] + f[8..12] + blob;
    assert e[..4] == MAGIC && e[4..6] == a && e[8..12] == b;
  }

  lemma FieldSizes(v: nat, w: nat)
    ensures |U16(v)| == 2 && |U32(w)| == 4 && |U16(0)| == 2
  {}

  lemma FieldsAt(f: seq<byte>)
    requires |f| >= HEADER_SIZE
    ensures LoadU16(f[4..]) == LoadU16(f[4..6]) && LoadU32(f[8..]) == LoadU32(f[8..12])
  {
    var p, q := f[8..], f[8..12];
    assert p[0] == q[0] && p[1] == q[1] && p[2] == q[2] && p[3] == q[3];
  }

  lemma FieldsRead(f: seq<byte>)
    requires HEADER_SIZE < |f| <= HEADER_SIZE + MAX_BLOB_BYTES
    ensures LoadU16(f[4..]) == FORMAT_VERSION <==> f[4..6] == U16(FORMAT_VERSION)
    ensures LoadU32(f[8..]) == |f| - HEADER_SIZE <==> f[8..12] == U32(|f| - HEADER_SIZE)
  {
    LoadStored(FORMAT_VERSION);
    LoadStored(|f| - HEADER_SIZE);
    StoredLoaded(f[4..6]);
    StoredLoaded(f[8..12]);
    FieldsAt(f);
    hide U16, U32, LoadU16, LoadU32;
  }

  /** Only such envelopes are accepted, up to the two reserved bytes. */
  lemma AcceptsOnlyEnvelopes(file: Option<seq<byte>>)
    ensures Parse(file).Some? <==>
            file.Some? && |file.value| > HEADER_SIZE && |file.value| <= HEADER_SIZE + MAX_BLOB_BYTES
            && var f := file.value;
               f == Envelope(f[HEADER_SIZE..])[6 := f[6]][7 := f[7]]
    ensures Parse(file).Some? ==> Parse(file).value == file.value[HEADER_SIZE..]
  {
    hide Envelope, LoadU16, LoadU32;
    if file.Some? && HEADER_SIZE < |file.value| <= HEADER_SIZE + MAX_BLOB_BYTES {
      EnvelopeByFields(file.value);
      FieldsRead(file.value);
    }
  }

  /** HasStoredKey promises less than Load needs: exactly the length field is not looked at. */
  lemma LoadableIffStoredAndWhole(file: Option<seq<byte>>)
    ensures Parse(file).Some? <==>
            HasStoredKey(file) && LoadU32(file.value[8..]) > 0
            && |file.value| == HEADER_SIZE + LoadU32(file.value[8..])
  {}

  /** A file that counts as stored and does not load: a header with no blob. */
  lemma StoredKeyMayNotLoad()
    ensures var file := Some([83, 83, 84, 75, 1, 0, 0, 0, 0, 0, 0, 0]);
            HasStoredKey(file) && Parse(file).None?
  {
    var f: seq<byte> := [83, 83, 84, 75, 1, 0, 0, 0, 0, 0, 0, 0];
    assert f[..4] == MAGIC;
  }

  // --- Protect, store, load, unprotect ---------------------------------------------------------

  /** DPAPI as a pair of partial functions. */
  datatype Protection = Protection(
    protect: seq<byte> -> Option<seq<byte>>, unprotect: seq<byte> -> Option<seq<byte>>)

  ghost predicate Inverse(p: Protection) {
    forall plain | p.protect(plain).Some? :: p.unprotect(p.protect(plain).value) == Some(plain)
  }

  /** The bytes Store writes, if it gets that far. */
  function ToWrite(p: Protection, plain: seq<byte>): Option<seq<byte>> {
    if plain == [] then None
    else
      var blob := p.protect(plain);
      if blob.None? || blob.value == [] || |blob.value| > MAX_BLOB_BYTES then None
      else Some(Envelope(blob.value))
  }

  function Load(p: Protection, file: Option<seq<byte>>): Option<seq<byte>> {
    var blob := Parse(file);
    if blob.None? then None else p.unprotect(blob.value)
  }

  /** What was stored is what is loaded. */
  lemma StoreThenLoad(p: Protection, plain: seq<byte>)
    requires Inverse(p) && ToWrite(p, plain).Some?
    ensures Load(p, ToWrite(p, plain)) == Some(plain)
    ensures HasStoredKey(ToWrite(p, plain))
  {
    ParseFramed(p.protect(plain).value);
    LoadableIffStoredAndWhole(ToWrite(p, plain));
  }

  // --- Atomic replacement ------------------------------------------------------------------------

  /** A file's bytes, and whether they have been flushed: a crash may tear unflushed ones. */
  datatype File = File(data: seq<byte>, flushed: bool)

  /** How the system calls of one write turn out. */
  datatype Calls = Calls(create: bool, write: bool, written: nat, flush: bool, move: bool, delete: bool)

  class Disk {
    var files: map<string, File>
    ghost var crashPoints: seq<map<string, File>> // every state the disk has been in

    ghost predicate Valid()
      reads this
    {
      crashPoints != [] && crashPoints[|crashPoints| - 1] == files
    }

    constructor (files: map<string, File>)
      ensures Valid() && this.files == files && crashPoints == [files]
    {
      this.files, crashPoints := files, [files];
    }

    /** Every state from number `n` on is one the replacement may be caught in. */
    ghost predicate SafeSince(n: nat, was: map<string, File>, path: string, bytes: seq<byte>)
      reads this
    {
      n <= |crashPoints| && forall k | n <= k < |crashPoints| :: CrashSafe(crashPoints[k], was, path, bytes)
    }

    method Update(now: map<string, File>, ghost n: nat, ghost was: map<string, File>, ghost path: string,
                  ghost bytes: seq<byte>)
      requires Valid() && SafeSince(n, was, path, bytes) && CrashSafe(now, was, path, bytes)
      modifies this
      ensures Valid() && files == now && crashPoints == old(crashPoints) + [now]
      ensures SafeSince(n, was, path, bytes)
    {
      files, crashPoints := now, crashPoints + [now];
    }

    /** Creates the temp file, writes it and flushes it. */
    method FillTemp(path: string, bytes: seq<byte>, calls: Calls) returns (ok: bool)
      requires Valid()
      modifies this
      ensures Valid() && old(crashPoints) <= crashPoints
      ensures SafeSince(|old(crashPoints)|, old(files), path, bytes)
      ensures ok ==> files == old(files)[TempOf(path) := File(bytes, true)]
      ensures files - {TempOf(path)} == old(files) - {TempOf(path)}
      ensures ok <==> calls.flush && (bytes == [] || (calls.write && calls.written == |bytes|))
    {
      hide TempOf;
      ghost var n, was := |crashPoints|, files;
      var tmp := TempOf(path);
      Update(files[tmp := File([], false)], n, was, path, bytes);
      ok := true;
      if bytes != [] {
        Update(files[tmp := File(if calls.written < |bytes| then bytes[..calls.written] else bytes, false)],
               n, was, path, bytes);
        ok := calls.write && calls.written == |bytes|;
      }
      if ok {
        ok := calls.flush;
        if ok {
          Update(files[tmp := File(files[tmp].data, true)], n, was, path, bytes);
        }
      }
    }

    /**
     * Temp file, flush, replace, clean up. Whenever it crashes, the path holds the
     * old file or the whole new one, and no file but the temp file is touched.
     */
    method WriteFileAtomic(path: string, bytes: seq<byte>, calls: Calls) returns (ok: bool)
      requires Valid()
      modifies this
      ensures Valid() && old(crashPoints) <= crashPoints
      ensures SafeSince(|old(crashPoints)|, old(files), path, bytes)
      ensures ok ==> files == old(files)[path := File(bytes, true)] - {TempOf(path)}
      ensures !ok ==> SameAt(files, old(files), path)
      ensures ok <==> calls.create && calls.flush && calls.move
                      && (bytes == [] || (calls.write && calls.written == |bytes|))
    {
      hide TempOf;
      ghost var n, was := |crashPoints|, files;
      var tmp := TempOf(path);
      if !calls.create {
        return false;
      }
      ok := FillTemp(path, bytes, calls);
      OthersAreKept(files, was, tmp);
      if ok {
        ok := calls.move;
        if ok {
          Update(files[path := files[tmp]] - {tmp}, n, was, path, bytes);
        }
      }
      if !ok && calls.delete {
        Update(files - {tmp}, n, was, path, bytes);
      }
    }
  }

  function TempOf(path: string): (tmp: string)
    ensures tmp != path
  {
    assert |path + ".tmp"| == |path| + 4;
    path + ".tmp"
  }

  /** The same file, or none, under a name. */
  ghost predicate SameAt(a: map<string, File>, b: map<string, File>, name: string) {
    (name in a <==> name in b) && (name in a ==> a[name] == b[name])
  }

  lemma OthersAreKept(a: map<string, File>, b: map<string, File>, name: string)
    requires a - {name} == b - {name}
    ensures forall other | other != name :: SameAt(a, b, other) && SameAt(a - {name}, b, other)
  {
    forall other | other != name ensures SameAt(a, b, other) && SameAt(a - {name}, b, other) {
      assert other in a - {name} <==> other in b - {name};
    }
  }

  /** The path holds what it held or the flushed new bytes; other files are as they were. */
  ghost predicate CrashSafe(now: map<string, File>, was: map<string, File>, path: string, bytes: seq<byte>) {
    && (SameAt(now, was, path) || (path in now && now[path] == File(bytes, true)))
    && forall name | name != path && name != TempOf(path) :: SameAt(now, was, name)
  }
}

/**
 * Attachments and local logs at rest: a header, then one length-prefixed sealed record per
 * 64 KiB of plaintext. The cipher is a pair of functions given to every operation.
 */
module SealedFile {
  import opened Common


  const CHUNK: nat := 65536
  const OVERHEAD: nat := 28
  /** The letters V C X G C M 1 and a newline. */
  const HEADER: Bytes := [86, 67, 88, 71, 67, 77, 49, 10]

  /** Sealing one record under its index may fail; so may opening it. */
  type Sealer = (nat, Bytes) -> Option<Bytes>
  type Opener = (nat, Bytes) -> Option<Bytes>

  datatype Failure = BadFraming | BadRecord | TooLong | BadLegacy

  function Length32(n: nat): (r: Bytes)
    requires n < 0x1_0000_0000
    ensures |r| == 4
  {
    var high := n / 256 / 256;
    [high / 256, high % 256, n / 256 % 256, n % 256]
  }

  function Read32(b: Bytes): nat
    requires |b| >= 4
  {
    var b0: int, b1: int, b2: int, b3: int := b[0], b[1], b[2], b[3];
    ((b0 * 256 + b1) * 256 + b2) * 256 + b3
  }

  lemma LengthReadsBack(n: nat, rest: Bytes)
    requires n < 0x1_0000_0000
    ensures Read32(Length32(n) + rest) == n
  {
    var b := Length32(n) + rest;
    var high := n / 256 / 256;
    assert b[0] == high / 256 && b[1] == high % 256 && b[2] == n / 256 % 256 && b[3] == n % 256;
    assert high == (high / 256) * 256 + high % 256 && n / 256 == high * 256 + n / 256 % 256;
  }

  /** The exact length of a sealed file. */
  function SealedSize(plain: int): int {
    if plain <= 0 then |HEADER| else |HEADER| + plain + (plain + CHUNK - 1) / CHUNK * (4 + OVERHEAD)
  }

  /** All records for `data`, the first under `index`; nothing if a record cannot be sealed. */
  function Records(seal: Sealer, data: Bytes, index: nat): Option<Bytes> {
    if data == [] then Some([])
    else
      var n := Min(CHUNK, |data|);
      match seal(index, data[..n])
      case None => None
      case Some(c) =>
        if |c| >= 0x1_0000_0000 then None
        else match Records(seal, data[n..], index + 1)
          case None => None
          case Some(rest) => Some(Length32(|c|) + c + rest)
  }

  function Seal(seal: Sealer, data: Bytes): Option<Bytes> { After(HEADER, Records(seal, data, 0)) }

  function After(a: Bytes, b: Option<Bytes>): Option<Bytes> { if b.None? then None else Some(a + b.value) }

  function AfterOk(a: Bytes, b: Result<Bytes, Failure>): Result<Bytes, Failure> {
    if b.Err? then b else Ok(a + b.value)
  }

  lemma ChunkOfRest(data: Bytes, offset: nat, end: nat)
    requires offset <= end <= |data|
    ensures data[offset..][..end - offset] == data[offset..end]
    ensures data[offset..][end - offset..] == data[end..]
  {
  }

  lemma OneRecordMore(out: Bytes, length: Bytes, record: Bytes, rest: Option<Bytes>)
    ensures rest.Some? ==> out + (length + record + rest.value) == out + length + record + rest.value
  {
  }

  method SealFile(seal: Sealer, data: Bytes) returns (r: Option<Bytes>)
    ensures r == Seal(seal, data)
  {
    var out := HEADER;
    var offset, index: nat := 0, 0;
    assert data[0..] == data;
    while offset < |data|
      invariant offset <= |data|
      invariant After(out, Records(seal, data[offset..], index)) == Seal(seal, data)
    {
      var end := offset + CHUNK;
      if end > |data| { end := |data|; }
      ChunkOfRest(data, offset, end);
      var blob := seal(index, data[offset..end]);
      if blob.None? || |blob.value| >= 0x1_0000_0000 { return None; }
      OneRecordMore(out, Length32(|blob.value|), blob.value, Records(seal, data[end..], index + 1));
      out := out + Length32(|blob.value|) + blob.value;
      offset, index := end, index + 1;
    }
    assert data[offset..] == [] && out + [] == out;
    return Some(out);
  }

  /** What the reader makes of the record at the front: the failure it ends with, or the plaintext. */
  function OneRecord(open: Opener, blob: Bytes, index: nat, had: nat, limit: int): (r: Result<Bytes, Failure>)
    ensures r.Ok? ==> |blob| >= 4 && 4 + Read32(blob) <= |blob|
  {
    if |blob| < 4 then Err(BadFraming)
    else
      var n := Read32(blob);
      if n < OVERHEAD || n > CHUNK + OVERHEAD || n > |blob| - 4 then Err(BadFraming)
      else match open(index, blob[4..4 + n])
        case None => Err(BadRecord)
        case Some(p) => if limit > 0 && (|p| > limit || had > limit - |p|) then Err(TooLong) else Ok(p)
  }

  /** Reads records until the input ends; `had` bytes of plaintext were read before. */
  function OpenRecords(open: Opener, blob: Bytes, index: nat, had: nat, limit: int): Result<Bytes, Failure>
    decreases |blob|
  {
    if blob == [] then Ok([])
    else match OneRecord(open, blob, index, had, limit)
      case Err(why) => Err(why)
      case Ok(p) => AfterOk(p, OpenRecords(open, blob[4 + Read32(blob)..], index + 1, had + |p|, limit))
  }

  function Open(open: Opener, legacy: Bytes -> Option<Bytes>, blob: Bytes, limit: int): Result<Bytes, Failure> {
    if HEADER <= blob then OpenRecords(open, blob[|HEADER|..], 0, 0, limit)
    else if |blob| < 24 then Err(BadLegacy)
    else match legacy(blob)
      case None => Err(BadLegacy)
      case Some(p) => if limit > 0 && |p| > limit then Err(TooLong) else Ok(p)
  }

  lemma AfterAll(a: Bytes, b: Bytes, r: Result<Bytes, Failure>)
    ensures AfterOk(a, AfterOk(b, r)) == AfterOk(a + b, r) && AfterOk([], r) == r
  {
    if r.Ok? { assert a + (b + r.value) == a + b + r.value && [] + r.value == r.value; }
  }

  /** Reading on from what is out already, one record at a time. */
  lemma NextRecord(open: Opener, rest: Bytes, index: nat, out: Bytes, limit: int)
    requires rest != []
    ensures AfterOk(out, OpenRecords(open, rest, index, |out|, limit))
            == match OneRecord(open, rest, index, |out|, limit)
               case Err(why) => Err(why)
               case Ok(p) =>
                 AfterOk(out + p, OpenRecords(open, rest[4 + Read32(rest)..], index + 1, |out + p|, limit))
  {
    var one := OneRecord(open, rest, index, |out|, limit);
    if one.Ok? {
      AfterAll(out, one.value, OpenRecords(open, rest[4 + Read32(rest)..], index + 1, |out| + |one.value|, limit));
    }
  }

  method ReadRecords(open: Opener, blob: Bytes, limit: int) returns (r: Result<Bytes, Failure>)
    ensures r == OpenRecords(open, blob, 0, 0, limit)
  {
    var rest, out: Bytes, index: nat := blob, [], 0;
    ghost var all := OpenRecords(open, blob, 0, 0, limit);
    AfterAll([], [], all);
    while |rest| > 0
      invariant AfterOk(out, OpenRecords(open, rest, index, |out|, limit)) == all
      decreases |rest|
    {
      NextRecord(open, rest, index, out, limit);
      if |rest| < 4 { return Err(BadFraming); }
      var n := Read32(rest);
      if n < OVERHEAD || n > CHUNK + OVERHEAD || n > |rest| - 4 { return Err(BadFraming); }
      var plain := open(index, rest[4..4 + n]);
      if plain.None? { return Err(BadRecord); }
      if limit > 0 && (|plain.value| > limit || |out| > limit - |plain.value|) { return Err(TooLong); }
      out := out + plain.value;
      rest, index := rest[4 + n..], index + 1;
    }
    assert out + [] == out;
    return Ok(out);
  }

  method OpenFileLimited(open: Opener, legacy: Bytes -> Option<Bytes>, blob: Bytes, limit: int)
      returns (r: Result<Bytes, Failure>)
    ensures r == Open(open, legacy, blob, limit)
  {
    if HEADER <= blob {
      r := ReadRecords(open, blob[|HEADER|..], limit);
      return;
    }
    if |blob| < 24 { return Err(BadLegacy); }
    var plain := legacy(blob);
    if plain.None? { return Err(BadLegacy); }
    if limit > 0 && |plain.value| > limit { return Err(TooLong); }
    return Ok(plain.value);
  }

  /** The ideal cipher: fixed overhead, and opening undoes sealing under the same index. */
  ghost predicate Ideal(seal: Sealer, open: Opener) {
    forall i: nat, p: Bytes {:trigger seal(i, p)} :: seal(i, p).Some? ==>
      |seal(i, p).value| == |p| + OVERHEAD && open(i, seal(i, p).value) == Some(p)
  }

  /** No successful bounded open of any blob, with any cipher, yields more than the limit. */
  lemma {:induction false} RecordsBounded(open: Opener, blob: Bytes, index: nat, had: nat, limit: int)
    requires 0 < limit && had <= limit && OpenRecords(open, blob, index, had, limit).Ok?
    ensures had + |OpenRecords(open, blob, index, had, limit).value| <= limit
    decreases |blob|
  {
    if blob != [] {
      var n := Read32(blob);
      var p := open(index, blob[4..4 + n]).value;
      RecordsBounded(open, blob[4 + n..], index + 1, had + |p|, limit);
    }
  }

  lemma OpenIsBounded(open: Opener, legacy: Bytes -> Option<Bytes>, blob: Bytes, limit: int)
    requires 0 < limit && Open(open, legacy, blob, limit).Ok?
    ensures |Open(open, legacy, blob, limit).value| <= limit
  {
    if HEADER <= blob { RecordsBounded(open, blob[|HEADER|..], 0, 0, limit); }
  }

  lemma SizeStep(n: nat)
    requires n > 0
    ensures SealedSize(n) == 4 + OVERHEAD + Min(CHUNK, n) + SealedSize(n - Min(CHUNK, n))
  {
  }

  lemma {:induction false} RecordsLength(seal: Sealer, open: Opener, data: Bytes, index: nat)
    requires Ideal(seal, open) && Records(seal, data, index).Some?
    ensures |Records(seal, data, index).value| + |HEADER| == SealedSize(|data|)
    decreases |data|
  {
    if data != [] {
      var n := Min(CHUNK, |data|);
      RecordsLength(seal, open, data[n..], index + 1);
      SizeStep(|data|);
      assert seal(index, data[..n]).Some?;
    }
  }

  lemma SealedLengthIsExact(seal: Sealer, open: Opener, data: Bytes)
    requires Ideal(seal, open) && Seal(seal, data).Some?
    ensures |Seal(seal, data).value| == SealedSize(|data|)
  {
    RecordsLength(seal, open, data, 0);
  }

  /** Bounding the sealed length bounds the plaintext, and no more than that. */
  lemma SizeOrdersPlaintexts(a: nat, b: nat)
    ensures SealedSize(a) <= SealedSize(b) <==> a <= b
  {
  }

  /* Reading a sealed file that may have been cut short. */

  /** How much plaintext the first `n` bytes of the records of `len` bytes carry, if they end with a record. */
  function Carried(len: nat, n: nat): Option<nat>
    decreases len
  {
    if n == 0 then Some(0)
    else if len == 0 then None
    else
      var c := Min(CHUNK, len);
      if n < 4 + OVERHEAD + c then None
      else match Carried(len - c, n - (4 + OVERHEAD + c))
        case None => None
        case Some(m) => Some(c + m)
  }

  /** The plaintext lengths at which a record ends. */
  predicate Boundary(len: nat, m: nat) { m == len || (m < len && m % CHUNK == 0) }

  lemma BoundaryStep(len: nat, m: nat)
    requires len > 0
    ensures var c := Min(CHUNK, len); if m < c then Boundary(len, m) <==> m == 0
              else Boundary(len, m) <==> Boundary(len - c, m - c)
  {
  }

  lemma {:induction false} CarriedAtBoundaries(len: nat, n: nat, m: nat)
    ensures Carried(len, n) == Some(m) <==> Boundary(len, m) && n + |HEADER| == SealedSize(m)
    decreases len
  {
    if m > 0 { SizeStep(m); }
    if len > 0 {
      var c := Min(CHUNK, len);
      BoundaryStep(len, m);
      if n >= 4 + OVERHEAD + c && m >= c { CarriedAtBoundaries(len - c, n - (4 + OVERHEAD + c), m - c); }
    }
  }

  /** What a cut of one record followed by others looks like to the reader. */
  lemma CutRecord(c: Bytes, rest: Bytes, n: nat)
    requires |c| < 0x1_0000_0000 && n <= 4 + |c| + |rest|
    ensures var cut := (Length32(|c|) + c + rest)[..n];
            && |cut| == n
            && (n >= 4 ==> Read32(cut) == |c|)
            && (n >= 4 + |c| ==> cut[4..4 + |c|] == c && cut[4 + |c|..] == rest[..n - (4 + |c|)])
  {
    var cut := (Length32(|c|) + c + rest)[..n];
    if n >= 4 {
      LengthReadsBack(|c|, []);
      assert Length32(|c|) + [] == Length32(|c|);
      assert cut[0] == Length32(|c|)[0] && cut[1] == Length32(|c|)[1] && cut[2] == Length32(|c|)[2] &&
          cut[3] == Length32(|c|)[3];
    }
  }

  /** Reading a cut that starts with one good record. */
  lemma OpenCut(open: Opener, p: Bytes, c: Bytes, rest: Bytes, index: nat, n: nat, had: nat, limit: int)
    requires open(index, c) == Some(p) && |c| == |p| + OVERHEAD && |p| <= CHUNK && 0 < n <= 4 + |c| + |rest|
    requires limit > 0 ==> had <= limit
    ensures OpenRecords(open, (Length32(|c|) + c + rest)[..n], index, had, limit)
            == if n < 4 + |c| then Err(BadFraming)
               else if limit > 0 && had + |p| > limit then Err(TooLong)
               else AfterOk(p, OpenRecords(open, rest[..n - (4 + |c|)], index + 1, had + |p|, limit))
  {
    CutRecord(c, rest, n);
  }

  lemma FirstRecord(seal: Sealer, open: Opener, data: Bytes, index: nat) returns (c: Bytes, rest: Bytes)
    requires Ideal(seal, open) && data != [] && Records(seal, data, index).Some?
    ensures var k := Min(CHUNK, |data|);
            && |c| == k + OVERHEAD && open(index, c) == Some(data[..k])
            && Records(seal, data[k..], index + 1) == Some(rest)
            && Records(seal, data, index) == Some(Length32(|c|) + c + rest)
  {
    var k := Min(CHUNK, |data|);
    c, rest := seal(index, data[..k]).value, Records(seal, data[k..], index + 1).value;
  }

  /** What reading `n` bytes of the records of `data` gives, after `had` bytes. */
  ghost predicate ReadsAs(r: Result<Bytes, Failure>, data: Bytes, n: nat, had: nat, limit: int) {
    match Carried(|data|, n)
    case None => r.Err?
    case Some(m) => m <= |data| && r == if limit > 0 && had + m > limit then Err(TooLong) else Ok(data[..m])
  }

  lemma ReadsStep(r: Result<Bytes, Failure>, data: Bytes, n: nat, had: nat, limit: int)
    requires data != [] && n >= 4 + OVERHEAD + Min(CHUNK, |data|)
    requires var k := Min(CHUNK, |data|);
             (limit <= 0 || had + k <= limit) && ReadsAs(r, data[k..], n - (4 + OVERHEAD + k), had + k, limit)
    ensures ReadsAs(AfterOk(data[..Min(CHUNK, |data|)], r), data, n, had, limit)
  {
    var k := Min(CHUNK, |data|);
    var m := Carried(|data| - k, n - (4 + OVERHEAD + k));
    if m.Some? { assert data[..k] + data[k..][..m.value] == data[..k + m.value]; }
  }

  /** One good record, read whole or not, within the limit or not. */
  predicate GoesOn(k: nat, n: nat, had: nat, limit: int) { n >= 4 + OVERHEAD + k && (limit <= 0 || had + k <= limit) }

  lemma CutStops(open: Opener, data: Bytes, c: Bytes, rest: Bytes, index: nat, n: nat, had: nat, limit: int)
    requires data != [] && 0 < n <= 4 + |c| + |rest| && (limit > 0 ==> had <= limit)
    requires open(index, c) == Some(data[..Min(CHUNK, |data|)]) && |c| == Min(CHUNK, |data|) + OVERHEAD
    requires !GoesOn(Min(CHUNK, |data|), n, had, limit)
    ensures ReadsAs(OpenRecords(open, (Length32(|c|) + c + rest)[..n], index, had, limit), data, n, had, limit)
  {
    var k := Min(CHUNK, |data|);
    OpenCut(open, data[..k], c, rest, index, n, had, limit);
    if n >= 4 + |c| { CarriedFits(|data| - k, n - (4 + |c|)); }
  }

  lemma CutGoesOn(open: Opener, data: Bytes, c: Bytes, rest: Bytes, index: nat, n: nat, had: nat, limit: int)
    requires data != [] && 0 < n <= 4 + |c| + |rest| && (limit > 0 ==> had <= limit)
    requires open(index, c) == Some(data[..Min(CHUNK, |data|)]) && |c| == Min(CHUNK, |data|) + OVERHEAD
    requires GoesOn(Min(CHUNK, |data|), n, had, limit)
    requires var k := Min(CHUNK, |data|);
             ReadsAs(OpenRecords(open, rest[..n - (4 + |c|)], index + 1, had + k, limit), data[k..], n - (4 + |c|),
                 had + k, limit)
    ensures ReadsAs(OpenRecords(open, (Length32(|c|) + c + rest)[..n], index, had, limit), data, n, had, limit)
  {
    var k := Min(CHUNK, |data|);
    OpenCut(open, data[..k], c, rest, index, n, had, limit);
    ReadsStep(OpenRecords(open, rest[..n - (4 + |c|)], index + 1, had + k, limit), data, n, had, limit);
  }

  /** Reading the first `n` bytes of the records of `data` gives what they carry. */
  ghost predicate CutReads(open: Opener, records: Bytes, data: Bytes, index: nat, n: nat, had: nat, limit: int)
    requires n <= |records|
  {
    ReadsAs(OpenRecords(open, records[..n], index, had, limit), data, n, had, limit)
  }

  lemma CutStep(open: Opener, data: Bytes, c: Bytes, rest: Bytes, index: nat, n: nat, had: nat, limit: int)
    requires data != [] && 0 < n <= 4 + |c| + |rest| && (limit > 0 ==> had <= limit)
    requires open(index, c) == Some(data[..Min(CHUNK, |data|)]) && |c| == Min(CHUNK, |data|) + OVERHEAD
    requires var k := Min(CHUNK, |data|);
             GoesOn(k, n, had, limit) ==> CutReads(open, rest, data[k..], index + 1, n - (4 + |c|), had + k, limit)
    ensures CutReads(open, Length32(|c|) + c + rest, data, index, n, had, limit)
  {
    if GoesOn(Min(CHUNK, |data|), n, had, limit) {
      CutGoesOn(open, data, c, rest, index, n, had, limit);
    } else {
      CutStops(open, data, c, rest, index, n, had, limit);
    }
  }

  lemma NothingReads(open: Opener, records: Bytes, data: Bytes, index: nat, had: nat, limit: int)
    requires limit > 0 ==> had <= limit
    ensures CutReads(open, records, data, index, 0, had, limit)
  {
  }

  /** The first `n` bytes of the records open exactly when they end with a record, and then to that much of the data. */
  lemma {:induction false} CutOpens(seal: Sealer, open: Opener, data: Bytes, records: Bytes, index: nat, n: nat,
      had: nat, limit: int)
    requires Ideal(seal, open) && Records(seal, data, index) == Some(records) && n <= |records|
    requires limit > 0 ==> had <= limit
    ensures CutReads(open, records, data, index, n, had, limit)
    decreases |data|
  {
    if n == 0 {
      NothingReads(open, records, data, index, had, limit);
    } else {
      var k := Min(CHUNK, |data|);
      var c, rest := FirstRecord(seal, open, data, index);
      if GoesOn(k, n, had, limit) {
        CutOpens(seal, open, data[k..], rest, index + 1, n - (4 + |c|), had + k, limit);
      }
      CutStep(open, data, c, rest, index, n, had, limit);
    }
  }

  lemma {:induction false} CarriedFits(len: nat, n: nat)
    ensures Carried(len, n).Some? ==> Carried(len, n).value <= len
    decreases len
  {
    if Carried(len, n).Some? { CarriedAtBoundaries(len, n, Carried(len, n).value); }
  }

  /** Opening gives back exactly what was sealed, precisely when the limit admits it. */
  lemma RoundTrip(seal: Sealer, open: Opener, legacy: Bytes -> Option<Bytes>, data: Bytes, limit: int)
    requires Ideal(seal, open) && Seal(seal, data).Some?
    ensures Open(open, legacy, Seal(seal, data).value, limit)
            == if limit > 0 && |data| > limit then Err(TooLong) else Ok(data)
  {
    var blob, records := Seal(seal, data).value, Records(seal, data, 0).value;
    assert HEADER <= blob && blob[|HEADER|..] == records && records[..|records|] == records;
    RecordsLength(seal, open, data, 0);
    CarriedAtBoundaries(|data|, |records|, |data|);
    CutOpens(seal, open, data, records, 0, |records|, 0, limit);
    assert data[..|data|] == data;
  }

  /**
   * A truncated file is refused, or opens as a shorter one: the latter exactly when the cut is
   * at the end of a record, and then it reads as that much of the original.
   */
  lemma TruncatedOpensIff(seal: Sealer, open: Opener, legacy: Bytes -> Option<Bytes>, data: Bytes, n: nat, p: Bytes)
    requires Ideal(seal, open) && Seal(seal, data).Some? && n <= |Seal(seal, data).value|
    ensures Open(open, legacy, Seal(seal, data).value[..n], 0) == Ok(p)
            <==> |p| <= |data| && p == data[..|p|] && Boundary(|data|, |p|) && n == SealedSize(|p|)
  {
    var blob, records := Seal(seal, data).value, Records(seal, data, 0).value;
    var cut := blob[..n];
    if n < |HEADER| {
      assert !(HEADER <= cut);
    } else {
      var k := n - |HEADER|;
      assert HEADER <= cut && cut[|HEADER|..] == records[..k];
      CutOpens(seal, open, data, records, 0, k, 0, 0);
      CarriedAtBoundaries(|data|, k, |p|);
    }
  }

  /* Content-derived names close that gap. */

  predicate IsHex(c: char) { '0' <= c <= '9' || 'a' <= c <= 'f' || 'A' <= c <= 'F' }

  function Lower(c: char): char { if 'A' <= c <= 'Z' then c - 'A' + 'a' else c }

  function LowerAll(s: string): (r: string)
    ensures |r| == |s| && forall i :: 0 <= i < |r| ==> r[i] == Lower(s[i])
  {
    seq(|s|, i requires 0 <= i < |s| => Lower(s[i]))
  }

  predicate ContentDerived(name: string) {
    |name| == 36 && LowerAll(name[32..]) == ".vcx" && forall i :: 0 <= i < 32 ==> IsHex(name[i])
  }

  /** The digest: 32 lower-case hexadecimal digits, different for different contents. */
  ghost predicate IdealDigest(digest: Bytes -> string) {
    && (forall b: Bytes {:trigger digest(b)} :: |digest(b)| == 32 && forall i :: 0 <= i < 32 ==>
         IsHex(digest(b)[i]) && Lower(digest(b)[i]) == digest(b)[i])
    && (forall a: Bytes, b: Bytes :: digest(a) == digest(b) ==> a == b)
  }

  function StorageName(digest: Bytes -> string, blob: Bytes): string { digest(blob) + ".vcx" }

  predicate NameAccepts(digest: Bytes -> string, name: string, blob: Bytes) {
    !ContentDerived(name) || StorageName(digest, blob) == LowerAll(name)
  }

  /** A content-derived name, in either case, admits the file it was made for and no other. */
  lemma NameAdmitsOneFile(digest: Bytes -> string, name: string, blob: Bytes, other: Bytes)
    requires IdealDigest(digest) && LowerAll(name) == StorageName(digest, blob)
    ensures ContentDerived(name)
    ensures NameAccepts(digest, name, other) <==> other == blob
  {
    var d := digest(blob);
    assert |name| == 36 && StorageName(digest, blob)[32..] == ".vcx";
    assert LowerAll(name[32..]) == LowerAll(name)[32..];
    forall i | 0 <= i < 32 ensures IsHex(name[i]) {
      assert Lower(name[i]) == StorageName(digest, blob)[i] == d[i];
    }
    if StorageName(digest, other) == StorageName(digest, blob) {
      assert StorageName(digest, other)[..32] == digest(other) && StorageName(digest, blob)[..32] == d;
    }
  }

  /** So under its content-derived name a truncated attachment is never taken for the whole. */
  lemma TruncationRefused(digest: Bytes -> string, name: string, blob: Bytes, n: nat)
    requires IdealDigest(digest) && LowerAll(name) == StorageName(digest, blob) && n < |blob|
    ensures !NameAccepts(digest, name, blob[..n])
  {
    NameAdmitsOneFile(digest, name, blob, blob[..n]);
  }

  /** A file without the header is one of the older form, opened whole, and at least 24 bytes long. */
  lemma OlderFormOpensIff(open: Opener, legacy: Bytes -> Option<Bytes>, blob: Bytes, limit: int, p: Bytes)
    requires !(HEADER <= blob)
    ensures Open(open, legacy, blob, limit) == Ok(p)
            <==> |blob| >= 24 && legacy(blob) == Some(p) && (limit <= 0 || |p| <= limit)
  {
  }

  /** A name that is not made from a content, as older files have, admits any file. */
  lemma OtherNamesAdmitAll(digest: Bytes -> string, name: string, blob: Bytes)
    requires |name| != 36 || exists i :: 0 <= i < 32 && !IsHex(name[i])
    ensures NameAccepts(digest, name, blob)
  {
  }
}

/**
 * Receiving one file over a transfer connection: chunks go to the partial file and through
 * the hash, then a digest of the whole file and a final status decide.
 */
module DownloadStream {
  import opened Common

  type Sum = string
  /** The digest; it is computed over everything that was fed to it. */
  type Hash = Bytes -> Sum

  /** `written` is how much of a chunk the file takes: less than all of it is a failed write. */
  datatype Frame =
    | Chunk(payload: Bytes, written: nat)
    | Status(ok: bool)
    | BadStatus
    | Digest(sum: Sum)
    | BadDigest
    | Other

  datatype End = Complete | Mismatch | Rejected | Interrupted

  /** The file, the bytes hashed, the running total and how it ended. */
  datatype Received = Received(file: Bytes, hashed: Bytes, total: nat, end: End)

  /** The status that must follow a good digest: anything but "ok" is an ordinary failure, as is a lost connection. */
  function LastStatus(frames: seq<Frame>): End {
    if frames == [] then Interrupted
    else match frames[0]
      case Status(ok) => if ok then Complete else Interrupted
      case _ => Interrupted
  }

  function Stream(hash: Hash, frames: seq<Frame>, file: Bytes, hashed: Bytes, total: nat, max: int): Received
    decreases |frames|
  {
    if frames == [] then Received(file, hashed, total, Interrupted)
    else match frames[0]
      case Chunk(payload, written) =>
        if max > 0 && total + |payload| > max then Received(file, hashed, total, Interrupted)
        else if written < |payload| then Received(file + payload[..written], hashed, total, Interrupted)
        else Stream(hash, frames[1..], file + payload, hashed + payload, total + |payload|, max)
      case Status(ok) => Received(file, hashed, total, if ok then Interrupted else Rejected)
      case Digest(sum) => Received(file, hashed, total, if sum != hash(hashed) then Mismatch
          else LastStatus(frames[1..]))
      case _ => Received(file, hashed, total, Interrupted)
  }

  method ReceiveFile(hash: Hash, frames: seq<Frame>, file0: Bytes, hashed0: Bytes, total0: nat, max: int)
      returns (r: Received)
    ensures r == Stream(hash, frames, file0, hashed0, total0, max)
  {
    var file, hashed, total, i := file0, hashed0, total0, 0;
    while i < |frames|
      invariant 0 <= i <= |frames|
      invariant Stream(hash, frames[i..], file, hashed, total, max) == Stream(hash, frames, file0, hashed0, total0, max)
    {
      var f := frames[i];
      assert frames[i..][0] == f && frames[i..][1..] == frames[i + 1..];
      i := i + 1;
      match f
      case Chunk(payload, written) =>
        if max > 0 && total + |payload| > max { return Received(file, hashed, total, Interrupted); }
        if written < |payload| { return Received(file + payload[..written], hashed, total, Interrupted); }
        file := file + payload;
        total := total + |payload|;
        hashed := hashed + payload;
      case Status(ok) => return Received(file, hashed, total, if ok then Interrupted else Rejected);
      case Digest(sum) =>
        if sum != hash(hashed) { return Received(file, hashed, total, Mismatch); }
        return Received(file, hashed, total, LastStatus(frames[i..]));
      case _ => return Received(file, hashed, total, Interrupted);
    }
    return Received(file, hashed, total, Interrupted);
  }

  /** The chunks received, end to end, up to the first other frame. */
  function Payloads(frames: seq<Frame>): Bytes {
    if frames == [] || !frames[0].Chunk? then [] else frames[0].payload + Payloads(frames[1..])
  }

  /** The first frame that is not a chunk. */
  function Verdict(frames: seq<Frame>): seq<Frame> {
    if frames == [] || !frames[0].Chunk? then frames else Verdict(frames[1..])
  }

  /** The file takes every leading chunk whole. */
  predicate AllWritten(frames: seq<Frame>) {
    frames == [] || !frames[0].Chunk? || (frames[0].written >= |frames[0].payload| && AllWritten(frames[1..]))
  }

  predicate WithinLimit(frames: seq<Frame>, total: nat, max: int) {
    max <= 0 || frames == [] || !frames[0].Chunk? || total + |Payloads(frames)| <= max
  }

  /**
   * A stream is complete exactly when every chunk was written and within the limit, and the
   * server's digest is that of the whole file, old part and new, followed by an "ok".
   */
  lemma {:induction false} CompleteIffVerified(hash: Hash, frames: seq<Frame>, file: Bytes, total: nat, max: int)
    ensures var r, whole, v := Stream(hash, frames, file, file, total, max), file + Payloads(frames), Verdict(frames);
            && (r.end == Complete <==>
                  AllWritten(frames) && WithinLimit(frames, total, max) && |v| >= 2 && v[0] == Digest(hash(whole)) &&
                      v[1] == Status(true))
            && (r.end == Complete ==> r.file == r.hashed == whole)
    decreases |frames|
  {
    if frames != [] && frames[0].Chunk? {
      var p := frames[0].payload;
      CompleteIffVerified(hash, frames[1..], file + p, total + |p|, max);
      assert file + p + Payloads(frames[1..]) == file + Payloads(frames);
    } else {
      assert file + Payloads(frames) == file;
    }
  }

  /**
   * How a resumed stream ends short of completion: with a mismatch exactly if the server's digest is not that
   * of the whole file, with a rejection exactly if an error status comes instead of a digest.
   */
  lemma {:induction false} EndIff(hash: Hash, frames: seq<Frame>, file: Bytes, total: nat)
    ensures var r, v := Stream(hash, frames, file, file, total, 0), Verdict(frames);
            && (r.end == Mismatch <==>
                  AllWritten(frames) && v != [] && v[0].Digest? && v[0].sum != hash(file + Payloads(frames)))
            && (r.end == Rejected <==> AllWritten(frames) && v != [] && v[0] == Status(false))
            && (r.end == Mismatch || r.end == Rejected ==> r.total == total + |Payloads(frames)|)
    decreases |frames|
  {
    if frames != [] && frames[0].Chunk? {
      var p := frames[0].payload;
      EndIff(hash, frames[1..], file + p, total + |p|);
      assert file + p + Payloads(frames[1..]) == file + Payloads(frames);
    } else {
      assert file + Payloads(frames) == file;
    }
  }

  /** The bytes that reach the file: whole chunks, and of a failed write the part it took. */
  function Taken(frames: seq<Frame>): Bytes {
    if frames == [] || !frames[0].Chunk? then []
    else if frames[0].written < |frames[0].payload| then frames[0].payload[..frames[0].written]
    else frames[0].payload + Taken(frames[1..])
  }

  /** Without a limit the file is what it was and every byte taken; the hash may lag behind a failed write. */
  lemma {:induction false} FileExtends(hash: Hash, frames: seq<Frame>, file: Bytes, total: nat)
    ensures var r := Stream(hash, frames, file, file, total, 0);
            && r.file == file + Taken(frames) && file <= r.hashed <= r.file
            && (r.end != Interrupted ==> r.hashed == r.file) && r.total == total + |r.hashed| - |file|
    decreases |frames|
  {
    if frames != [] && frames[0].Chunk? {
      var p := frames[0].payload;
      if frames[0].written >= |p| {
        FileExtends(hash, frames[1..], file + p, total + |p|);
        assert file + p + Taken(frames[1..]) == file + Taken(frames);
      }
    } else {
      assert file + Taken(frames) == file;
    }
  }
}

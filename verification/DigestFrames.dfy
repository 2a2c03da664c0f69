/** The byte streams behind the digests that bind an overlay payload and a task oracle. A
    digest stands for the stream it was fed: equal digests mean equal streams. */
module DigestFrames {
  import opened Optional
  import opened Octets
  import opened Ordering

  const LENGTH_BYTES: nat := 8

  /** `len(frame).to_bytes(8, "big")`, which raises when eight bytes are not enough. */
  function BigEndian(n: nat, width: nat): (s: Bytes)
    ensures |s| == width
  {
    if width == 0 then [] else BigEndian(n / 256, width - 1) + [n % 256]
  }

  function Number(s: Bytes): nat {
    if s == [] then 0 else Number(s[..|s| - 1]) * 256 + s[|s| - 1]
  }

  /** 256 to the power of the width. */
  function Limit(width: nat): (n: nat)
    ensures n >= 1
  {
    if width == 0 then 1 else 256 * Limit(width - 1)
  }

  lemma {:induction false} BigEndianIsExact(n: nat, width: nat)
    requires n < Limit(width)
    ensures Number(BigEndian(n, width)) == n
  {
    if width > 0 {
      BigEndianIsExact(n / 256, width - 1);
      var s := BigEndian(n, width);
      assert s[..|s| - 1] == BigEndian(n / 256, width - 1);
    }
  }

  predicate Fits(frames: seq<Bytes>) {
    forall k :: 0 <= k < |frames| ==> |frames[k]| < Limit(LENGTH_BYTES)
  }

  function Framed(frame: Bytes): Bytes {
    BigEndian(|frame|, LENGTH_BYTES) + frame
  }

  /** What `_hash_frames` feeds the digest. */
  function Stream(frames: seq<Bytes>): Bytes {
    if frames == [] then [] else Stream(frames[..|frames| - 1]) + Framed(frames[|frames| - 1])
  }

  /** `_hash_frames`: the stream, or the overflow a frame of 2^64 bytes would raise. */
  method HashFrames(frames: seq<Bytes>) returns (stream: Option<Bytes>)
    ensures stream == if Fits(frames) then Some(Stream(frames)) else None
  {
    var fed: Bytes := [];
    for k := 0 to |frames|
      invariant Fits(frames[..k]) && fed == Stream(frames[..k])
    {
      if |frames[k]| >= Limit(LENGTH_BYTES) { return None; }
      assert frames[..k + 1][..k] == frames[..k];
      Associates(fed, BigEndian(|frames[k]|, LENGTH_BYTES), frames[k]);
      fed := fed + BigEndian(|frames[k]|, LENGTH_BYTES);
      fed := fed + frames[k];
    }
    assert frames[..|frames|] == frames;
    return Some(fed);
  }

  /** Read from the front: the first frame's length says where it ends. */
  lemma {:induction false} StreamFromTheFront(frames: seq<Bytes>)
    requires frames != []
    ensures Stream(frames) == Framed(frames[0]) + Stream(frames[1..])
  {
    var n := |frames| - 1;
    if n == 0 {
      assert frames[..0] == [] && frames[1..] == [];
    } else {
      var rest := frames[1..];
      StreamFromTheFront(frames[..n]);
      assert frames[..n][1..] == rest[..n - 1] && rest[n - 1] == frames[n];
      Associates(Framed(frames[0]), Stream(rest[..n - 1]), Framed(frames[n]));
    }
  }

  lemma Associates(a: Bytes, b: Bytes, c: Bytes)
    ensures (a + b) + c == a + (b + c)
  {
  }

  /** Different frame lists give different streams. */
  lemma {:induction false} StreamIsUniquelyDecodable(a: seq<Bytes>, b: seq<Bytes>)
    requires Fits(a) && Fits(b) && Stream(a) == Stream(b)
    ensures a == b
  {
    if a == [] || b == [] {
      if a != [] { StreamFromTheFront(a); }
      if b != [] { StreamFromTheFront(b); }
    } else {
      var s := Stream(a);
      StreamFromTheFront(a);
      StreamFromTheFront(b);
      FirstFrame(s, a[0], Stream(a[1..]));
      FirstFrame(s, b[0], Stream(b[1..]));
      StreamIsUniquelyDecodable(a[1..], b[1..]);
      assert a == [a[0]] + a[1..] && b == [b[0]] + b[1..];
    }
  }

  lemma FirstFrame(s: Bytes, frame: Bytes, rest: Bytes)
    requires |frame| < Limit(LENGTH_BYTES) && s == Framed(frame) + rest
    ensures |s| >= LENGTH_BYTES && var n := Number(s[..LENGTH_BYTES]);
      n == |frame| && LENGTH_BYTES + n <= |s| && frame == s[LENGTH_BYTES..LENGTH_BYTES + n] && rest == s[LENGTH_BYTES + n..]
  {
    assert s[..LENGTH_BYTES] == BigEndian(|frame|, LENGTH_BYTES);
    BigEndianIsExact(|frame|, LENGTH_BYTES);
  }

  // ---- the overlay payload ------------------------------------------------------------------

  datatype File = File(path: Bytes, content: Bytes)

  function FileFrames(files: seq<File>): seq<Bytes> {
    if files == [] then [] else [files[0].path, files[0].content] + FileFrames(files[1..])
  }

  lemma {:induction false} FileFramesAreUnique(a: seq<File>, b: seq<File>)
    requires FileFrames(a) == FileFrames(b)
    ensures a == b
  {
    if a != [] && b != [] {
      assert FileFrames(a)[2..] == FileFrames(a[1..]) && FileFrames(b)[2..] == FileFrames(b[1..]);
      FileFramesAreUnique(a[1..], b[1..]);
      assert a[0].path == FileFrames(a)[0] && a[0].content == FileFrames(a)[1];
      assert b[0].path == FileFrames(b)[0] && b[0].content == FileFrames(b)[1];
      assert a == [a[0]] + a[1..] && b == [b[0]] + b[1..];
    }
  }

  /** `_fingerprint_payload`: four updates a file. */
  method FingerprintPayload(payload: seq<File>) returns (stream: Option<Bytes>)
    ensures stream == if Fits(FileFrames(payload)) then Some(Stream(FileFrames(payload))) else None
  {
    var fed: Bytes := [];
    var k := 0;
    while k < |payload|
      invariant 0 <= k <= |payload|
      invariant Fits(FileFrames(payload[..k])) && fed == Stream(FileFrames(payload[..k]))
    {
      var path, content := payload[k].path, payload[k].content;
      var before := FileFrames(payload[..k]);
      OneMoreFile(payload, k);
      if |path| >= Limit(LENGTH_BYTES) || |content| >= Limit(LENGTH_BYTES) {
        TooLong(payload, k);
        return None;
      }
      var withPath := before + [path];
      assert (withPath + [content])[..|withPath|] == withPath && withPath[..|before|] == before;
      assert withPath + [content] == before + [path, content];
      Associates(fed, BigEndian(|path|, LENGTH_BYTES), path);
      Associates(fed + Framed(path), BigEndian(|content|, LENGTH_BYTES), content);
      fed := fed + BigEndian(|path|, LENGTH_BYTES);
      fed := fed + path;
      fed := fed + BigEndian(|content|, LENGTH_BYTES);
      fed := fed + content;
      k := k + 1;
    }
    assert payload[..|payload|] == payload;
    return Some(fed);
  }

  lemma {:induction false} FileFramesAppend(a: seq<File>, b: seq<File>)
    ensures FileFrames(a + b) == FileFrames(a) + FileFrames(b)
  {
    if a == [] {
      assert a + b == b;
    } else {
      assert (a + b)[1..] == a[1..] + b;
      FileFramesAppend(a[1..], b);
    }
  }

  lemma OneMoreFile(payload: seq<File>, k: nat)
    requires k < |payload|
    ensures FileFrames(payload[..k + 1]) == FileFrames(payload[..k]) + [payload[k].path, payload[k].content]
  {
    assert payload[..k + 1] == payload[..k] + [payload[k]];
    FileFramesAppend(payload[..k], [payload[k]]);
  }

  lemma TooLong(payload: seq<File>, k: nat)
    requires k < |payload|
    requires |payload[k].path| >= Limit(LENGTH_BYTES) || |payload[k].content| >= Limit(LENGTH_BYTES)
    ensures !Fits(FileFrames(payload))
  {
    assert payload == payload[..k + 1] + payload[k + 1..];
    FileFramesAppend(payload[..k + 1], payload[k + 1..]);
    OneMoreFile(payload, k);
    var n := |FileFrames(payload[..k])|;
    assert FileFrames(payload)[n] == payload[k].path && FileFrames(payload)[n + 1] == payload[k].content;
  }

  /** Two overlays have one digest exactly when they are the same files in the same order. */
  lemma PayloadDigestIsExact(a: seq<File>, b: seq<File>)
    requires Fits(FileFrames(a)) && Fits(FileFrames(b))
    ensures Stream(FileFrames(a)) == Stream(FileFrames(b)) <==> a == b
  {
    if Stream(FileFrames(a)) == Stream(FileFrames(b)) {
      StreamIsUniquelyDecodable(FileFrames(a), FileFrames(b));
      FileFramesAreUnique(a, b);
    }
  }

  // ---- the task oracle ------------------------------------------------------------------------

  function TargetKey(file: File): Key {
    [file.path]
  }

  /** The frames `capture_task_oracle` digests: the command, then the files by target. */
  function OracleFrames(command: Bytes, files: seq<File>): seq<Bytes> {
    [command] + FileFrames(Sort(files, TargetKey))
  }

  predicate DistinctTargets(files: seq<File>) {
    forall i, j :: 0 <= i < j < |files| ==> files[i].path != files[j].path
  }

  /** Two oracles have one digest exactly when they have the same command and the same files,
      whatever the order they were declared in. */
  lemma OracleDigestIsExact(command: Bytes, files: seq<File>, other: Bytes, others: seq<File>)
    requires DistinctTargets(files) && DistinctTargets(others)
    requires Fits(OracleFrames(command, files)) && Fits(OracleFrames(other, others))
    ensures Stream(OracleFrames(command, files)) == Stream(OracleFrames(other, others))
      <==> command == other && multiset(files) == multiset(others)
  {
    var a, b := OracleFrames(command, files), OracleFrames(other, others);
    if Stream(a) == Stream(b) {
      StreamIsUniquelyDecodable(a, b);
      assert a[1..] == FileFrames(Sort(files, TargetKey)) && b[1..] == FileFrames(Sort(others, TargetKey));
      FileFramesAreUnique(Sort(files, TargetKey), Sort(others, TargetKey));
      assert multiset(files) == multiset(Sort(files, TargetKey));
    }
    if multiset(files) == multiset(others) {
      TargetsTell(files);
      SortIgnoresOrder(files, others, TargetKey);
    }
  }

  lemma TargetsTell(files: seq<File>)
    requires DistinctTargets(files)
    ensures TellsApart(multiset(files), TargetKey)
  {
    forall x, y | x in multiset(files) && y in multiset(files) && TargetKey(x) == TargetKey(y) ensures x == y {
      var i :| 0 <= i < |files| && files[i] == x;
      var j :| 0 <= j < |files| && files[j] == y;
      assert files[i].path == [x.path][0] == [y.path][0] == files[j].path;
    }
  }
}

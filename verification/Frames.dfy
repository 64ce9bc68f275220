/** The frame protocol between `scripts/lib/ci-control/working-document-reader.ts`, which writes one frame
    per path, and `readWorkingDocuments` of `scripts/baseline-growth-guard.ts`, which decodes them:
    a kind byte (0 absent, 1 present), a big-endian 32-bit length, and that many bytes. */
module Frames {
  import opened Wrappers

  type Byte = b: int | 0 <= b < 0x100
  type Bytes = seq<Byte>
  type Documents = map<string, Option<Bytes>>

  const HEADER := 5
  const MAX_EXACT_SINGLE_BLOB_BYTES := 4 * 1_024 * 1_024

  datatype DecodeError = InvalidPaths | InvalidResult

  function UInt32BE(n: nat): (bytes: Bytes)
    requires n < 0x1_0000_0000
    ensures |bytes| == 4
  {
    [n / 0x100_0000, n / 0x1_0000 % 0x100, n / 0x100 % 0x100, n % 0x100]
  }

  function ReadUInt32BE(s: Bytes, offset: nat): (n: nat)
    requires offset + 4 <= |s|
    ensures n < 0x1_0000_0000
  {
    var a: int, b: int, c: int, d: int := s[offset], s[offset + 1], s[offset + 2], s[offset + 3];
    ((a * 0x100 + b) * 0x100 + c) * 0x100 + d
  }

  predicate Fits(document: Option<Bytes>) {
    document.Some? ==> |document.value| <= MAX_EXACT_SINGLE_BLOB_BYTES
  }

  function EncodeOne(document: Option<Bytes>): Bytes
    requires Fits(document)
  {
    match document
    case None => [0] + UInt32BE(0)
    case Some(bytes) => [1] + UInt32BE(|bytes|) + bytes
  }

  predicate Covers(documents: Documents, paths: seq<string>) {
    forall p <- paths :: p in documents && Fits(documents[p])
  }

  /** What the reader writes: the frames of the documents, in the order of the paths. */
  function Encode(paths: seq<string>, documents: Documents): Bytes
    requires Covers(documents, paths)
  {
    if paths == [] then []
    else
      var n := |paths| - 1;
      Encode(paths[..n], documents) + EncodeOne(documents[paths[n]])
  }

  function SetOf(paths: seq<string>): set<string> {
    set p <- paths
  }

  predicate Distinct(paths: seq<string>) {
    forall i, j | 0 <= i < j < |paths| :: paths[i] != paths[j]
  }

  /** `s` is the encoding of some documents for `paths`. */
  ghost predicate IsEncoding(paths: seq<string>, s: Bytes) {
    exists documents: Documents :: Covers(documents, paths) && Encode(paths, documents) == s
  }

  lemma DigitsAddUp(n: nat)
    ensures ((n / 0x100_0000 * 0x100 + n / 0x1_0000 % 0x100) * 0x100 + n / 0x100 % 0x100) * 0x100 + n % 0x100 == n
  {
    var m := n / 0x100;
    var k := m / 0x100;
    assert n / 0x1_0000 == k && n / 0x100_0000 == k / 0x100;
  }

  lemma UInt32RoundTrip(n: nat, s: Bytes, offset: nat)
    requires n < 0x1_0000_0000 && offset + 4 <= |s| && s[offset..offset + 4] == UInt32BE(n)
    ensures ReadUInt32BE(s, offset) == n
  {
    var b := s[offset..offset + 4];
    assert s[offset] == b[0] && s[offset + 1] == b[1] && s[offset + 2] == b[2] && s[offset + 3] == b[3];
    DigitsAddUp(n);
  }

  lemma UInt32Inverse(s: Bytes, offset: nat)
    requires offset + 4 <= |s|
    ensures UInt32BE(ReadUInt32BE(s, offset)) == s[offset..offset + 4]
  {
    var a: int, b: int, c: int, d: int := s[offset], s[offset + 1], s[offset + 2], s[offset + 3];
    var n := ReadUInt32BE(s, offset);
    assert n == a * 0x100_0000 + b * 0x1_0000 + c * 0x100 + d;
    assert n / 0x100 == a * 0x1_0000 + b * 0x100 + c;
    assert n / 0x1_0000 == a * 0x100 + b;
    assert n / 0x100_0000 == a;
    assert n % 0x100 == d;
    assert (n / 0x100) % 0x100 == c;
    assert (n / 0x1_0000) % 0x100 == b;
  }

  lemma EncodeNext(paths: seq<string>, documents: Documents, n: nat)
    requires Covers(documents, paths) && n < |paths|
    ensures Encode(paths[..n + 1], documents) == Encode(paths[..n], documents) + EncodeOne(documents[paths[n]])
  {
    assert paths[..n + 1][..n] == paths[..n];
  }

  /** The prefix of an encoding that `n` paths take up. */
  lemma {:induction false} EncodePrefix(paths: seq<string>, documents: Documents, n: nat)
    requires Covers(documents, paths) && n <= |paths|
    ensures Encode(paths[..n], documents) <= Encode(paths, documents)
    decreases |paths|
  {
    if n == |paths| {
      assert paths[..n] == paths;
    } else {
      var m := |paths| - 1;
      assert paths[..m][..n] == paths[..n];
      EncodePrefix(paths[..m], documents, n);
      PrefixThrough(Encode(paths[..n], documents), Encode(paths[..m], documents), EncodeOne(documents[paths[m]]));
    }
  }

  lemma PrefixThrough(a: Bytes, b: Bytes, c: Bytes)
    requires a <= b
    ensures a <= b + c
  {
  }

  /** Encoding depends only on the documents at its paths. */
  lemma {:induction false} EncodeAgrees(paths: seq<string>, a: Documents, b: Documents)
    requires Covers(a, paths) && Covers(b, paths) && forall p <- paths :: a[p] == b[p]
    ensures Encode(paths, a) == Encode(paths, b)
  {
    if paths != [] { EncodeAgrees(paths[..|paths| - 1], a, b); }
  }

  /** Every document list that encodes to `s` has its first `i` frames in the first `offset` bytes. */
  ghost predicate Pending(paths: seq<string>, s: Bytes, i: nat, offset: nat)
    requires i <= |paths| && offset <= |s|
  {
    forall d: Documents :: Covers(d, paths) && Encode(paths, d) == s ==> Encode(paths[..i], d) == s[..offset]
  }

  /** `documents` are the first `i` documents, decoded from the first `offset` bytes. */
  ghost predicate Decoded(paths: seq<string>, s: Bytes, i: nat, offset: nat, documents: Documents)
    requires i <= |paths| && offset <= |s|
  {
    && documents.Keys == SetOf(paths[..i])
    && Covers(documents, paths[..i]) && Encode(paths[..i], documents) == s[..offset]
  }

  /** The checks the decoder makes on the frame at `offset`. */
  predicate ChecksPass(s: Bytes, offset: nat) {
    offset + HEADER <= |s| &&
    var kind, length := s[offset], ReadUInt32BE(s, offset + 1);
    && (kind == 0 || kind == 1) && length <= MAX_EXACT_SINGLE_BLOB_BYTES
    && offset + HEADER + length <= |s| && (kind == 0 ==> length == 0)
  }

  /** The decoder is an exact inverse of the encoder: it accepts precisely the encodings for the requested
      distinct paths, and what it returns encodes back to the bytes it was given. */
  method ReadWorkingDocuments(paths: seq<string>, stdout: Bytes) returns (r: Result<Documents, DecodeError>)
    ensures paths == [] || !Distinct(paths) <==> r == Failure(InvalidPaths)
    ensures paths != [] && Distinct(paths) ==> (r.Success? <==> IsEncoding(paths, stdout))
    ensures r.Success? ==>
      r.value.Keys == SetOf(paths) && Covers(r.value, paths) && Encode(paths, r.value) == stdout
    ensures forall d: Documents | paths != [] && Distinct(paths) && IsDecoding(paths, stdout, d) :: r == Success(d)
  {
    if paths == [] || !Distinct(paths) { return Failure(InvalidPaths); }
    var documents: Documents := map[];
    var offset := 0;
    var i := 0;
    while i < |paths|
      invariant 0 <= i <= |paths| && 0 <= offset <= |stdout|
      invariant Decoded(paths, stdout, i, offset, documents) && Pending(paths, stdout, i, offset)
    {
      var frame := ReadFrame(stdout, offset);
      if frame.None? {
        Reject(paths, stdout, i, offset);
        return Failure(InvalidResult);
      }
      var (document, next) := frame.value;
      var longer := documents[paths[i] := document];
      Accept(paths, stdout, i, offset, documents, document, longer, next);
      Proceed(paths, stdout, i, offset, next);
      documents := longer;
      offset := next;
      i := i + 1;
    }
    assert paths[..i] == paths && stdout[..|stdout|] == stdout;
    if offset != |stdout| {
      TrailingBytes(paths, stdout, offset);
      return Failure(InvalidResult);
    }
    forall d: Documents | IsDecoding(paths, stdout, d) ensures d == documents {
      DecodingIsUnique(paths, stdout, d, documents);
    }
    return Success(documents);
  }

  /** One turn of the decoder: the frame at `offset`, or a refusal. */
  method ReadFrame(stdout: Bytes, offset: nat) returns (frame: Option<(Option<Bytes>, nat)>)
    requires offset <= |stdout|
    ensures frame.Some? <==> ChecksPass(stdout, offset)
    ensures frame.Some? ==>
      var (document, next) := frame.value;
      && next == offset + HEADER + ReadUInt32BE(stdout, offset + 1) <= |stdout|
      && document == if stdout[offset] == 0 then None else Some(stdout[offset + HEADER..next])
  {
    if offset + HEADER > |stdout| { return None; }
    var kind := stdout[offset];
    var length := ReadUInt32BE(stdout, offset + 1);
    var start := offset + HEADER;
    if (kind != 0 && kind != 1) || length > MAX_EXACT_SINGLE_BLOB_BYTES || start + length > |stdout| {
      return None;
    }
    if kind == 0 && length != 0 { return None; }
    return Some((if kind == 0 then None else Some(stdout[start..start + length]), start + length));
  }

  /** Two documents whose frames both stand at `offset` are one. */
  lemma FrameIsUnique(s: Bytes, offset: nat, a: Option<Bytes>, b: Option<Bytes>)
    requires Fits(a) && Fits(b) && offset <= |s|
    requires s[..offset] + EncodeOne(a) <= s && s[..offset] + EncodeOne(b) <= s
    ensures a == b
  {
    FrameIsThere(s, offset, a);
    FrameIsThere(s, offset, b);
    BodyIsThere(s, offset, a);
    BodyIsThere(s, offset, b);
  }

  lemma BodyIsThere(s: Bytes, offset: nat, document: Option<Bytes>)
    requires Fits(document) && offset <= |s| && s[..offset] + EncodeOne(document) <= s
    ensures document.Some? ==>
      offset + HEADER + |document.value| <= |s|
        && document.value == s[offset + HEADER..offset + HEADER + |document.value|]
  {
    if document.Some? {
      var frame := EncodeOne(document);
      assert s[offset..offset + |frame|] == frame;
      assert frame[HEADER..] == document.value;
    }
  }

  /** `d` is a document list for exactly `paths` that encodes to `s`. */
  ghost predicate IsDecoding(paths: seq<string>, s: Bytes, d: Documents) {
    d.Keys == SetOf(paths) && Covers(d, paths) && Encode(paths, d) == s
  }

  /** In an encoding, frame `n` stands right behind the frames before it. */
  lemma FrameFollows(paths: seq<string>, s: Bytes, d: Documents, n: nat, prefix: Bytes)
    requires Covers(d, paths) && Encode(paths, d) == s && n < |paths| && Encode(paths[..n], d) == prefix
    ensures |prefix| <= |s| && s[..|prefix|] + EncodeOne(d[paths[n]]) <= s
    ensures Encode(paths[..n + 1], d) == prefix + EncodeOne(d[paths[n]])
  {
    EncodeNext(paths, d, n);
    EncodePrefix(paths, d, n + 1);
    assert s[..|prefix|] == prefix;
  }

  lemma NextFrameAgrees(paths: seq<string>, a: Documents, b: Documents, n: nat)
    requires Covers(a, paths) && Covers(b, paths) && Encode(paths, a) == Encode(paths, b) && n < |paths|
    requires Encode(paths[..n], a) == Encode(paths[..n], b)
    ensures Encode(paths[..n + 1], a) == Encode(paths[..n + 1], b) && a[paths[n]] == b[paths[n]]
  {
    var s, prefix := Encode(paths, a), Encode(paths[..n], a);
    FrameFollows(paths, s, a, n, prefix);
    FrameFollows(paths, s, b, n, prefix);
    FrameIsUnique(s, |prefix|, a[paths[n]], b[paths[n]]);
  }

  /** The first `i` frames of two document lists agree, and so do their documents. */
  ghost predicate AgreeUpTo(paths: seq<string>, a: Documents, b: Documents, i: nat) {
    && i <= |paths| && Covers(a, paths[..i]) && Covers(b, paths[..i]) && Encode(paths[..i], a) == Encode(paths[..i], b)
    && forall j | 0 <= j < i :: paths[j] in a && paths[j] in b && a[paths[j]] == b[paths[j]]
  }

  lemma AgreeOneMore(paths: seq<string>, a: Documents, b: Documents, i: nat)
    requires Covers(a, paths) && Covers(b, paths) && Encode(paths, a) == Encode(paths, b) && i < |paths|
    requires AgreeUpTo(paths, a, b, i)
    ensures AgreeUpTo(paths, a, b, i + 1)
  {
    NextFrameAgrees(paths, a, b, i);
    assert forall p <- paths[..i + 1] :: p in paths;
  }

  /** Two document lists with one encoding agree, frame by frame. */
  lemma {:induction false} FramesAgree(paths: seq<string>, a: Documents, b: Documents, i: nat)
    requires Covers(a, paths) && Covers(b, paths) && Encode(paths, a) == Encode(paths, b) && i <= |paths|
    ensures AgreeUpTo(paths, a, b, i)
  {
    if i == 0 {
      assert paths[..0] == [];
    } else {
      FramesAgree(paths, a, b, i - 1);
      AgreeOneMore(paths, a, b, i - 1);
    }
  }

  lemma DecodingIsUnique(paths: seq<string>, s: Bytes, a: Documents, b: Documents)
    requires IsDecoding(paths, s, a) && IsDecoding(paths, s, b)
    ensures a == b
  {
    FramesAgree(paths, a, b, |paths|);
    forall p <- a ensures a[p] == b[p] {
      assert p in SetOf(paths);
      var j :| 0 <= j < |paths| && paths[j] == p;
    }
  }

  /** Round trip: decoding what the reader writes for any documents gives those documents back. */
  method RoundTrip(paths: seq<string>, documents: Documents) returns (r: Result<Documents, DecodeError>)
    requires paths != [] && Distinct(paths) && documents.Keys == SetOf(paths) && Covers(documents, paths)
    ensures r == Success(documents)
  {
    r := ReadWorkingDocuments(paths, Encode(paths, documents));
  }

  lemma TrailingBytes(paths: seq<string>, s: Bytes, offset: nat)
    requires offset < |s| && Pending(paths, s, |paths|, offset)
    ensures !IsEncoding(paths, s)
  {
    assert paths[..|paths|] == paths;
  }

  /** In an encoding the next frame follows the decoded ones. */
  lemma NextFrame(paths: seq<string>, s: Bytes, i: nat, offset: nat, d: Documents)
    requires i < |paths| && offset <= |s| && Covers(d, paths) && Encode(paths, d) == s
      && Encode(paths[..i], d) == s[..offset]
    ensures FrameAt(s, offset, d[paths[i]])
    ensures Encode(paths[..i + 1], d) == s[..offset + |EncodeOne(d[paths[i]])|]
  {
    EncodeNext(paths, d, i);
    EncodePrefix(paths, d, i + 1);
    FrameIsThere(s, offset, d[paths[i]]);
  }

  lemma Reject(paths: seq<string>, s: Bytes, i: nat, offset: nat)
    requires i < |paths| && offset <= |s| && Pending(paths, s, i, offset) && !ChecksPass(s, offset)
    ensures !IsEncoding(paths, s)
  {
    forall d: Documents | Covers(d, paths) && Encode(paths, d) == s ensures false {
      NextFrame(paths, s, i, offset, d);
    }
  }

  lemma Proceed(paths: seq<string>, s: Bytes, i: nat, offset: nat, next: nat)
    requires i < |paths| && offset <= |s| && Pending(paths, s, i, offset) && ChecksPass(s, offset)
    requires next == offset + HEADER + ReadUInt32BE(s, offset + 1)
    ensures Pending(paths, s, i + 1, next)
  {
    forall d: Documents | Covers(d, paths) && Encode(paths, d) == s ensures Encode(paths[..i + 1], d) == s[..next] {
      NextFrame(paths, s, i, offset, d);
    }
  }

  predicate FrameAt(s: Bytes, offset: nat, document: Option<Bytes>) {
    && Fits(document)
    && offset + |EncodeOne(document)| <= |s|
    && offset + HEADER <= |s|
    && s[offset] == (if document.Some? then 1 else 0)
    && ReadUInt32BE(s, offset + 1) == (if document.Some? then |document.value| else 0)
    && |EncodeOne(document)| == HEADER + ReadUInt32BE(s, offset + 1)
  }

  lemma FrameIsThere(s: Bytes, offset: nat, document: Option<Bytes>)
    requires Fits(document) && offset <= |s| && s[..offset] + EncodeOne(document) <= s
    ensures FrameAt(s, offset, document)
  {
    var frame := EncodeOne(document);
    var length := if document.Some? then |document.value| else 0;
    assert s[offset..offset + |frame|] == frame;
    assert s[offset] == frame[0];
    assert s[offset + 1..offset + 5] == frame[1..5] == UInt32BE(length);
    UInt32RoundTrip(length, s, offset + 1);
  }

  lemma FrameFollowsPrefix(s: Bytes, offset: nat, next: nat, frame: Bytes)
    requires offset <= next <= |s| && frame == s[offset..next]
    ensures s[..next] == s[..offset] + frame
  {
  }

  lemma AcceptDocument(
    paths: seq<string>, s: Bytes, i: nat, offset: nat, documents: Documents, document: Option<Bytes>,
    longer: Documents, next: nat)
    requires i < |paths| && Distinct(paths) && offset <= next <= |s| && Decoded(paths, s, i, offset, documents)
    requires Fits(document) && EncodeOne(document) == s[offset..next]
    requires longer == documents[paths[i] := document]
    ensures Decoded(paths, s, i + 1, next, longer)
  {
    FrameFollowsPrefix(s, offset, next, EncodeOne(document));
    Extend(paths, i, documents, document);
  }

  /** A frame that passes the checks is the encoding of the document read from it. */
  lemma Accept(
    paths: seq<string>, s: Bytes, i: nat, offset: nat, documents: Documents, document: Option<Bytes>,
    longer: Documents, next: nat)
    requires i < |paths| && Distinct(paths) && offset <= |s| && ChecksPass(s, offset)
    requires Decoded(paths, s, i, offset, documents)
    requires next == offset + HEADER + ReadUInt32BE(s, offset + 1)
    requires document == if s[offset] == 0 then None else Some(s[offset + HEADER..next])
    requires longer == documents[paths[i] := document]
    ensures Decoded(paths, s, i + 1, next, longer)
  {
    FrameDecodes(s, offset, document);
    AcceptDocument(paths, s, i, offset, documents, document, longer, next);
  }

  lemma Extend(paths: seq<string>, i: nat, documents: Documents, document: Option<Bytes>)
    requires i < |paths| && Distinct(paths) && Fits(document)
    requires documents.Keys == SetOf(paths[..i]) && Covers(documents, paths[..i])
    ensures var longer := documents[paths[i] := document];
      && longer.Keys == SetOf(paths[..i + 1])
      && Covers(longer, paths[..i + 1])
      && Encode(paths[..i + 1], longer) == Encode(paths[..i], documents) + EncodeOne(document)
  {
    var longer := documents[paths[i] := document];
    assert paths[..i + 1] == paths[..i] + [paths[i]];
    assert paths[..i + 1][..i] == paths[..i];
    forall p <- paths[..i] ensures p != paths[i] { }
    EncodeAgrees(paths[..i], documents, longer);
  }

  lemma FrameDecodes(s: Bytes, offset: nat, document: Option<Bytes>)
    requires offset + HEADER <= |s|
    requires var n := ReadUInt32BE(s, offset + 1);
      && n <= MAX_EXACT_SINGLE_BLOB_BYTES && offset + HEADER + n <= |s|
      && ((s[offset] == 0 && n == 0 && document == None)
          || (s[offset] == 1 && document == Some(s[offset + HEADER..offset + HEADER + n])))
    ensures Fits(document) && EncodeOne(document) == s[offset..offset + HEADER + ReadUInt32BE(s, offset + 1)]
  {
    var n := ReadUInt32BE(s, offset + 1);
    UInt32Inverse(s, offset + 1);
    var header := s[offset..offset + HEADER];
    assert header == [s[offset]] + s[offset + 1..offset + 5];
    assert s[offset..offset + HEADER + n] == header + s[offset + HEADER..offset + HEADER + n];
  }
}

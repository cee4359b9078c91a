/** The byte stream that `digest_tree` feeds to the hasher: for every file, in order, the length
    of its relative path in eight big-endian bytes, the path, the length of its data, the data
    (src/skill_native/provenance.py, `digest_tree`). */
module TreeStream {
  import opened Wrappers
  import opened Hashing
  import opened Strings

  datatype File = File(path: seq<byte>, data: seq<byte>)

  /** `n.to_bytes(width, "big")`. */
  function BigEndian(n: nat, width: nat): (b: seq<byte>)
    ensures |b| == width
  {
    if width == 0 then [] else BigEndian(n / 256, width - 1) + [n % 256]
  }

  function Value(b: seq<byte>): nat {
    if b == [] then 0 else 256 * Value(b[..|b| - 1]) + b[|b| - 1]
  }

  function Pow256(k: nat): nat {
    if k == 0 then 1 else 256 * Pow256(k - 1)
  }

  lemma {:induction false} ValueOfBigEndian(n: nat, width: nat)
    requires n < Pow256(width)
    ensures Value(BigEndian(n, width)) == n
  {
    if width > 0 {
      ValueOfBigEndian(n / 256, width - 1);
      assert BigEndian(n, width)[..width - 1] == BigEndian(n / 256, width - 1);
    }
  }

  lemma {:induction false} BigEndianOfValue(b: seq<byte>)
    ensures BigEndian(Value(b), |b|) == b && Value(b) < Pow256(|b|)
  {
    if b != [] {
      BigEndianOfValue(b[..|b| - 1]);
      assert b == b[..|b| - 1] + [b[|b| - 1]];
    }
  }

  predicate Fits(f: File) {
    |f.path| < Pow256(8) && |f.data| < Pow256(8)
  }

  function Block(b: seq<byte>): seq<byte> { BigEndian(|b|, 8) + b }

  function Frame(f: File): seq<byte> { Block(f.path) + Block(f.data) }

  function Stream(files: seq<File>): seq<byte> {
    if files == [] then [] else Frame(files[0]) + Stream(files[1..])
  }

  lemma StreamFrom(files: seq<File>, i: nat)
    requires i < |files|
    ensures Stream(files[i..]) == Frame(files[i]) + Stream(files[i + 1..])
  {
    assert files[i..][1..] == files[i + 1..];
    hide Frame;
  }

  lemma FeedFrame(fed: seq<byte>, f: File)
    ensures fed + BigEndian(|f.path|, 8) + f.path + BigEndian(|f.data|, 8) + f.data == fed + Frame(f)
  {
    hide BigEndian;
  }

  lemma Regroup(a: seq<byte>, b: seq<byte>, c: seq<byte>)
    ensures a + (b + c) == a + b + c
  {
  }

  lemma StreamEnds(files: seq<File>)
    ensures Stream(files[|files|..]) == []
  {
  }

  // ------------------------------------------------------------ the order of the files

  const SLASH: byte := 47

  function KeyChar(c: int): char
    requires 0 <= c < 256
  {
    if c == SLASH then '\0' else (c + 1) as char
  }

  /** A path as a text whose order is the order of paths: the separator comes before all else. */
  function PathKey(path: seq<byte>): (key: string)
    ensures |key| == |path|
  {
    seq(|path|, i requires 0 <= i < |path| => KeyChar(path[i]))
  }

  function FileKey(f: File): string { PathKey(f.path) }

  lemma PathKeyInjective(a: seq<byte>, b: seq<byte>)
    requires PathKey(a) == PathKey(b)
    ensures a == b
  {
    forall i | 0 <= i < |a| ensures a[i] == b[i] {
      assert PathKey(a)[i] == PathKey(b)[i];
    }
  }

  /** `path.parts`, for a relative path. */
  function Parts(path: seq<byte>): (parts: seq<seq<byte>>)
    ensures parts != []
  {
    if path == [] then [[]]
    else
      var rest := Parts(path[1..]);
      if path[0] == SLASH then [[]] + rest else [[path[0]] + rest[0]] + rest[1..]
  }

  predicate BytesLess(a: seq<byte>, b: seq<byte>) {
    b != [] && (a == [] || a[0] < b[0] || (a[0] == b[0] && BytesLess(a[1..], b[1..])))
  }

  predicate PartsLess(a: seq<seq<byte>>, b: seq<seq<byte>>) {
    b != [] && (a == [] || BytesLess(a[0], b[0]) || (a[0] == b[0] && PartsLess(a[1..], b[1..])))
  }

  lemma KeyTail(path: seq<byte>)
    requires path != []
    ensures PathKey(path)[1..] == PathKey(path[1..])
  {
  }

  lemma Irreflexive(a: seq<byte>)
    ensures !BytesLess(a, a)
  {
    if a != [] { Irreflexive(a[1..]); }
  }

  lemma SameHead(c: byte, x: seq<byte>, y: seq<byte>)
    ensures BytesLess([c] + x, [c] + y) <==> BytesLess(x, y)
    ensures [c] + x == [c] + y <==> x == y
  {
    assert ([c] + x)[1..] == x && ([c] + y)[1..] == y;
  }

  /** Paths are compared part by part, as Python does it on POSIX systems; UTF-8 keeps the order of
      code points. */
  lemma {:induction false} KeyOrder(a: seq<byte>, b: seq<byte>)
    ensures StringLess(PathKey(a), PathKey(b)) <==> PartsLess(Parts(a), Parts(b))
    decreases |a|
  {
    if a != [] && b != [] {
      KeyTail(a);
      KeyTail(b);
      KeyOrder(a[1..], b[1..]);
      hide PathKey;
      assert PathKey(a)[0] == KeyChar(a[0]) by { FirstKey(a); }
      assert PathKey(b)[0] == KeyChar(b[0]) by { FirstKey(b); }
      var x, y := Parts(a[1..]), Parts(b[1..]);
      if a[0] == b[0] == SLASH {
        assert ([[]] + x)[1..] == x && ([[]] + y)[1..] == y;
        Irreflexive([]);
      } else if a[0] == b[0] {
        SameHead(a[0], x[0], y[0]);
      }
    }
  }

  lemma FirstKey(path: seq<byte>)
    requires path != []
    ensures PathKey(path)[0] == KeyChar(path[0])
  {
  }

  /** The files in the order in which they are hashed. */
  function InOrder(files: seq<File>): seq<File> { SortBy(files, FileKey) }

  predicate DistinctPaths(files: seq<File>) {
    forall i, j :: 0 <= i < j < |files| ==> files[i].path != files[j].path
  }

  lemma KeysDistinct(files: seq<File>)
    requires DistinctPaths(files)
    ensures Distinct(Keys(files, FileKey))
  {
    hide PathKey, Keys;
    forall i, j | 0 <= i < j < |files| ensures Keys(files, FileKey)[i] != Keys(files, FileKey)[j] {
      if PathKey(files[i].path) == PathKey(files[j].path) {
        PathKeyInjective(files[i].path, files[j].path);
      }
    }
  }

  lemma StrictOrder(files: seq<File>)
    requires DistinctPaths(files)
    ensures StrictlySorted(Keys(InOrder(files), FileKey))
  {
    KeysDistinct(files);
    hide Keys, SortBy, StringLess, StrictlySorted, Distinct, FileKey, PathKey;
    SortDistinct(files, FileKey);
  }

  /** The order in which the directory walk yields the files has no influence. */
  lemma WalkIrrelevant(a: seq<File>, b: seq<File>)
    requires DistinctPaths(a) && DistinctPaths(b) && forall f :: f in a <==> f in b
    ensures InOrder(a) == InOrder(b)
  {
    StrictOrder(a);
    StrictOrder(b);
    SortedUnique(InOrder(a), InOrder(b), FileKey);
  }

  /** The loop of `digest_tree`; `to_bytes` raises when a length needs more than eight bytes. */
  method DigestTree(H: Hash, walked: seq<File>) returns (digest: Option<Digest>)
    ensures digest == if forall f :: f in walked ==> Fits(f) then Some(H(Stream(InOrder(walked)))) else None
  {
    hide BigEndian, Fits, Frame, Stream;
    var files := SortBy(walked, FileKey);
    var fed: seq<byte> := [];
    assert files[0..] == files;
    for i := 0 to |files|
      invariant forall j :: 0 <= j < i ==> Fits(files[j])
      invariant Stream(files) == fed + Stream(files[i..])
    {
      if !Fits(files[i]) {
        return None;
      }
      StreamFrom(files, i);
      FeedFrame(fed, files[i]);
      Regroup(fed, Frame(files[i]), Stream(files[i + 1..]));
      fed := fed + BigEndian(|files[i].path|, 8) + files[i].path + BigEndian(|files[i].data|, 8) + files[i].data;
    }
    StreamEnds(files);
    assert fed == Stream(files);
    return Some(H(fed));
  }

  // ----------------------------------------------------------------- decoding

  function ReadBlock(b: seq<byte>): Option<(seq<byte>, seq<byte>)> {
    if |b| < 8 || |b| - 8 < Value(b[..8]) then None
    else Some((b[8..8 + Value(b[..8])], b[8 + Value(b[..8])..]))
  }

  function DecodeStream(b: seq<byte>): Option<seq<File>>
    decreases |b|
  {
    if b == [] then Some([])
    else match ReadBlock(b)
      case None => None
      case Some((path, more)) =>
        match ReadBlock(more)
        case None => None
        case Some((data, rest)) =>
          match DecodeStream(rest)
          case None => None
          case Some(files) => Some([File(path, data)] + files)
  }

  lemma ReadBlockOfBlock(b: seq<byte>, rest: seq<byte>)
    requires |b| < Pow256(8)
    ensures ReadBlock(Block(b) + rest) == Some((b, rest))
  {
    hide Pow256, BigEndian, Value;
    ValueOfBigEndian(|b|, 8);
    assert (Block(b) + rest)[..8] == BigEndian(|b|, 8);
  }

  lemma BlockOfReadBlock(b: seq<byte>)
    requires ReadBlock(b).Some?
    ensures b == Block(ReadBlock(b).value.0) + ReadBlock(b).value.1 && |ReadBlock(b).value.0| < Pow256(8)
  {
    hide Pow256, BigEndian, Value;
    BigEndianOfValue(b[..8]);
    var (part, rest) := ReadBlock(b).value;
    assert b == b[..8] + part + rest;
  }

  /** Unique decoding: a stream decodes to a list of files exactly when it is their stream and no
      length overflows. */
  lemma {:induction false} DecodeStreamExact(b: seq<byte>, files: seq<File>)
    ensures DecodeStream(b) == Some(files) <==> b == Stream(files) && forall f :: f in files ==> Fits(f)
    decreases |b| + |files|
  {
    hide Pow256, Block, ReadBlock;
    if b == Stream(files) && (forall f :: f in files ==> Fits(f)) && files != [] {
      var f, tail := files[0], Stream(files[1..]);
      assert f in files && Fits(f);
      ReadBlockOfBlock(f.path, Block(f.data) + tail);
      ReadBlockOfBlock(f.data, tail);
      assert b == Block(f.path) + (Block(f.data) + tail);
      FrameNotEmpty(f);
      DecodeStreamExact(tail, files[1..]);
      assert [File(f.path, f.data)] + files[1..] == files;
    }
    if DecodeStream(b) == Some(files) && b != [] {
      BlockOfReadBlock(b);
      var (path, more) := ReadBlock(b).value;
      BlockOfReadBlock(more);
      var (data, rest) := ReadBlock(more).value;
      ShorterRest(b);
      ShorterRest(more);
      var others := DecodeStream(rest).value;
      DecodeStreamExact(rest, others);
      assert files[1..] == others;
      assert b == Frame(files[0]) + Stream(files[1..]);
    }
  }

  lemma ShorterRest(b: seq<byte>)
    requires ReadBlock(b).Some?
    ensures |ReadBlock(b).value.1| + |ReadBlock(b).value.0| + 8 <= |b|
  {
  }

  lemma FrameNotEmpty(f: File)
    ensures |Frame(f)| >= 16
  {
  }

  /** The same digest means the same tree: the files found by the two walks have the same relative
      paths and the same contents. */
  lemma DigestFixesTree(H: Hash, a: seq<File>, b: seq<File>)
    requires (forall f :: f in a ==> Fits(f)) && (forall f :: f in b ==> Fits(f))
    requires CollisionFree(H, {Stream(InOrder(a)), Stream(InOrder(b))})
    requires H(Stream(InOrder(a))) == H(Stream(InOrder(b)))
    ensures InOrder(a) == InOrder(b)
    ensures forall f :: f in a <==> f in b
  {
    var x, y := InOrder(a), InOrder(b);
    assert (forall f :: f in x <==> f in a) && (forall f :: f in y <==> f in b);
    hide Fits, Stream, InOrder;
    DecodeStreamExact(Stream(x), x);
    DecodeStreamExact(Stream(x), y);
  }

  /** And the same tree has the same digest, however it is walked. */
  lemma TreeFixesDigest(H: Hash, a: seq<File>, b: seq<File>)
    requires DistinctPaths(a) && DistinctPaths(b) && forall f :: f in a <==> f in b
    ensures H(Stream(InOrder(a))) == H(Stream(InOrder(b)))
  {
    WalkIrrelevant(a, b);
  }
}

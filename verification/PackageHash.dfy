/** The canonical byte stream a plugin package's digest is taken of. */
module PackageHash {
  import opened Bytes
  import opened Order
  import opened RelativePath
  import opened Wrappers

  // ------------------------------ line endings ------------------------------

  /** CR LF pairs become LF. */
  function Unpaired(b: seq<Byte>): seq<Byte> {
    if b == [] then []
    else if StartsWithPair(b) then ['\n'] + Unpaired(b[2..])
    else [b[0]] + Unpaired(b[1..])
  }

  predicate StartsWithPair(b: seq<Byte>) {
    |b| > 1 && b[0] == '\r' && b[1] == '\n'
  }

  /** What a file is hashed as: any NUL marks it binary and leaves it alone. */
  function ForHash(b: seq<Byte>): seq<Byte> {
    if NUL in b then b else Unpaired(b)
  }

  method NormalizeForHash(bytes: seq<Byte>) returns (normalized: seq<Byte>)
    ensures normalized == ForHash(bytes)
  {
    if NUL in bytes {
      return bytes;
    }
    normalized := [];
    var index := 0;
    while index < |bytes|
      invariant 0 <= index <= |bytes|
      invariant normalized + Unpaired(bytes[index..]) == Unpaired(bytes)
    {
      ghost var before, rest := normalized, bytes[index..];
      if bytes[index] == '\r' && index + 1 < |bytes| && bytes[index + 1] == '\n' {
        normalized := normalized + ['\n'];
        index := index + 2;
        assert rest[2..] == bytes[index..];
        assert before + (['\n'] + Unpaired(rest[2..])) == normalized + Unpaired(rest[2..]);
      } else {
        normalized := normalized + [bytes[index]];
        index := index + 1;
        assert rest[1..] == bytes[index..];
        assert before + ([rest[0]] + Unpaired(rest[1..])) == normalized + Unpaired(rest[1..]);
      }
    }
  }

  /** The same text checked out with CR LF line endings. */
  function Paired(b: seq<Byte>): seq<Byte> {
    if b == [] then []
    else (if b[0] == '\n' then ['\r', '\n'] else [b[0]]) + Paired(b[1..])
  }

  /** Somewhere in `b` begins an `x`. */
  predicate Contains(b: seq<Byte>, x: seq<Byte>) {
    x <= b || (b != [] && Contains(b[1..], x))
  }

  lemma {:induction false} UnpairedUndoesPaired(b: seq<Byte>)
    ensures Unpaired(Paired(b)) == b
    ensures NUL in Paired(b) <==> NUL in b
    ensures Paired(b) == b <==> '\n' !in b
    ensures |Paired(b)| >= |b|
    ensures b != [] && b[0] == '\n' <==> StartsWithPair(Paired(b))
    ensures Paired(b) != [] ==> Paired(b)[0] != '\n'
  {
    if b != [] {
      UnpairedUndoesPaired(b[1..]);
      var rest := Paired(b[1..]);
      assert b == [b[0]] + b[1..];
      if b[0] == '\n' {
        assert Paired(b) == ['\r', '\n'] + rest;
        assert Paired(b)[2..] == rest;
        assert |Paired(b)| > |b|;
      } else {
        assert Paired(b)[1..] == rest;
      }
    }
  }

  lemma {:induction false} UnpairedLeaves(b: seq<Byte>)
    ensures Unpaired(b) == b <==> !Contains(b, "\r\n")
    ensures |Unpaired(b)| <= |b|
  {
    if b != [] {
      UnpairedLeaves(b[1..]);
      assert StartsWithPair(b) <==> "\r\n" <= b;
      assert b == [b[0]] + b[1..];
      if StartsWithPair(b) {
        UnpairedLeaves(b[2..]);
      }
    }
  }

  /** The digest does not depend on the line endings of the checkout, exactly when the file is
      free of CR LF to begin with (text) or of line feeds altogether (binary). */
  lemma LineEndingsAreIgnoredIff(b: seq<Byte>)
    ensures ForHash(Paired(b)) == ForHash(b) <==> if NUL in b then '\n' !in b else !Contains(b, "\r\n")
  {
    UnpairedUndoesPaired(b);
    UnpairedLeaves(b);
  }

  lemma {:induction false} PairsLeft(b: seq<Byte>)
    ensures Contains(Unpaired(b), "\r\n") <==> Contains(b, "\r\r\n")
    ensures NUL in Unpaired(b) <==> NUL in b
    ensures Unpaired(b) != [] && Unpaired(b)[0] == '\n' <==> (b != [] && b[0] == '\n') || StartsWithPair(b)
  {
    if b != [] {
      var u := Unpaired(b);
      assert b == [b[0]] + b[1..];
      if StartsWithPair(b) {
        PairsLeft(b[2..]);
        assert u[1..] == Unpaired(b[2..]);
          assert b[1..][1..] == b[2..];
        assert b[1..] == [b[1]] + b[2..];
      } else {
        PairsLeft(b[1..]);
        assert u[1..] == Unpaired(b[1..]);
      }
    }
  }

  /** Normalising is not idempotent: CR CR LF leaves a CR LF behind, and nothing else does. */
  lemma NormalizingSettlesIff(b: seq<Byte>)
    ensures ForHash(ForHash(b)) == ForHash(b) <==> NUL in b || !Contains(b, "\r\r\n")
  {
    if NUL !in b {
      PairsLeft(b);
      UnpairedLeaves(Unpaired(b));
    }
  }

  // ------------------------------ the hashed stream ------------------------------

  function Entry(f: File): seq<Byte> {
    f.path + [NUL] + Little(|f.content|, 8) + f.content
  }

  function Stream(files: seq<File>): seq<Byte> {
    if files == [] then [] else Entry(files[0]) + Stream(files[1..])
  }

  function Hashed(f: File): File {
    File(f.path, ForHash(f.content))
  }

  function AllHashed(files: seq<File>): seq<File> {
    Each(files, Hashed)
  }

  predicate ByPath(a: File, b: File) {
    Less(a.path, b.path)
  }

  /** The files under the paths `norm` gives them, or the fault of the first that has none. */
  function Renamed(walked: seq<File>, norm: Path -> Result<Path, PathFault>): Result<seq<File>, PathFault> {
    if walked == [] then Ok([])
    else
      var n := |walked| - 1;
      var front := Renamed(walked[..n], norm);
      if front.Err? then front
      else
        var path := norm(walked[n].path);
        if path.Err? then Err(path.error) else Ok(front.value + [File(path.value, walked[n].content)])
  }

  function Normalizer(utf8: Utf8): Path -> Result<Path, PathFault> {
    path => Normalized(path, utf8)
  }

  /** The bytes the digest of a directory is taken of, from what the walk found. */
  function Preimage(walked: seq<File>, utf8: Utf8): Result<seq<Byte>, PathFault> {
    var files := Renamed(walked, Normalizer(utf8));
    if files.Err? then Err(files.error) else Ok(Stream(AllHashed(Sorted(files.value, ByPath))))
  }

  method FeedPackageHash(walked: seq<File>, utf8: Utf8) returns (r: Result<seq<Byte>, PathFault>)
    ensures r == Preimage(walked, utf8)
  {
    var files := Relativize(walked, utf8);
    if files.Err? {
      return Err(files.error);
    }
    var fed := Feed(Sorted(files.value, ByPath));
    return Ok(fed);
  }

  method Relativize(walked: seq<File>, utf8: Utf8) returns (r: Result<seq<File>, PathFault>)
    ensures r == Renamed(walked, Normalizer(utf8))
  {
    var files: seq<File> := [];
    for i := 0 to |walked|
      invariant Renamed(walked[..i], Normalizer(utf8)) == Ok(files)
    {
      assert walked[..i + 1][..i] == walked[..i];
      var path := NormalizedRelativePath(walked[i].path, utf8);
      if path.Err? {
        RenamedStops(walked, Normalizer(utf8), i + 1);
        return Err(path.error);
      }
      files := files + [File(path.value, walked[i].content)];
    }
    assert walked[..|walked|] == walked;
    return Ok(files);
  }

  method Feed(files: seq<File>) returns (fed: seq<Byte>)
    ensures fed == Stream(AllHashed(files))
  {
    fed := [];
    for i := 0 to |files|
      invariant fed + Stream(AllHashed(files[i..])) == Stream(AllHashed(files))
    {
      var bytes := NormalizeForHash(files[i].content);
      ghost var rest := Stream(AllHashed(files[i + 1..]));
      StreamStep(files[i..]);
      assert files[i..][1..] == files[i + 1..];
      ghost var before := fed;
      fed := fed + (files[i].path + [NUL] + Little(|bytes|, 8) + bytes);
      assert before + (Entry(Hashed(files[i])) + rest) == fed + rest;
    }
  }

  lemma StreamStep(files: seq<File>)
    requires files != []
    ensures Stream(AllHashed(files)) == Entry(Hashed(files[0])) + Stream(AllHashed(files[1..]))
  {
    assert AllHashed(files)[1..] == AllHashed(files[1..]);
  }

  lemma {:induction false} RenamedStops(walked: seq<File>, norm: Path -> Result<Path, PathFault>, n: nat)
    requires n <= |walked| && Renamed(walked[..n], norm).Err?
    ensures Renamed(walked, norm) == Renamed(walked[..n], norm)
  {
    if n < |walked| {
      var front := walked[..|walked| - 1];
      assert front[..n] == walked[..n];
      RenamedStops(front, norm, n);
    } else {
      assert walked[..n] == walked;
    }
  }

  // ------------------------------ the layout of the stream ------------------------------

  /** Where the entry of file `i` begins. */
  ghost function Offset(files: seq<File>, i: nat): nat
    requires i <= |files|
  {
    if i == 0 then 0 else Offset(files, i - 1) + |files[i - 1].path| + 9 + |files[i - 1].content|
  }

  /** From `at` on: the path, a NUL, the content's length in eight bytes, lowest first, and the content. */
  ghost predicate LaidOut(bytes: seq<Byte>, at: nat, f: File) {
    var n := |f.path|;
    && at + n + 9 + |f.content| <= |bytes|
    && bytes[at..at + n] == f.path && bytes[at + n] == '\0'
    && (forall k: nat :: k < 8 ==> bytes[at + n + 1 + k] as int == |f.content| / Pow(k) % 256)
    && bytes[at + n + 9..at + n + 9 + |f.content|] == f.content
  }

  lemma EntryIsLaidOut(before: seq<Byte>, f: File, after: seq<Byte>)
    ensures LaidOut(before + (Entry(f) + after), |before|, f)
    ensures |Entry(f)| == |f.path| + 9 + |f.content|
  {
    var length := Little(|f.content|, 8);
    var bytes := before + (Entry(f) + after);
    var m, n := |before|, |before| + |f.path| + 1;
    assert bytes == before + (f.path + [NUL] + length + f.content + after);
    assert bytes[n..n + 8] == length;
    forall k: nat | k < 8 ensures bytes[n + k] as int == |f.content| / Pow(k) % 256 {
      LittleDigits(|f.content|, 8, k);
      assert bytes[n + k] == bytes[n..n + 8][k];
    }
    assert bytes[m..m + |f.path|] == f.path;
    assert bytes[n + 8..n + 8 + |f.content|] == f.content;
  }

  lemma {:induction false} StreamSplits(files: seq<File>, i: nat) returns (before: seq<Byte>, after: seq<Byte>)
    requires i < |files|
    ensures |before| == Offset(files, i) && Stream(files) == before + (Entry(files[i]) + after)
    ensures i + 1 == |files| ==> after == []
    decreases files
  {
    if i == 0 {
      before, after := [], Stream(files[1..]);
    } else {
      var rest;
      rest, after := StreamSplits(files[1..], i - 1);
      before := Entry(files[0]) + rest;
      OffsetsShift(files, i);
      EntryIsLaidOut([], files[0], []);
      assert Entry(files[0]) + (rest + (Entry(files[i]) + after)) == before + (Entry(files[i]) + after);
    }
  }

  lemma {:induction false} OffsetsShift(files: seq<File>, i: nat)
    requires 0 < i <= |files|
    ensures Offset(files, i) == |files[0].path| + 9 + |files[0].content| + Offset(files[1..], i - 1)
  {
    if i > 1 { OffsetsShift(files, i - 1); }
  }

  /** The stream is its files' entries one straight after the other, and nothing else. */
  lemma StreamIsLaidOut(files: seq<File>)
    ensures |Stream(files)| == Offset(files, |files|)
    ensures forall i: nat :: i < |files| ==> LaidOut(Stream(files), Offset(files, i), files[i])
  {
    forall i: nat | i < |files|
      ensures LaidOut(Stream(files), Offset(files, i), files[i])
      ensures i + 1 == |files| ==> |Stream(files)| == Offset(files, |files|)
    {
      var before, after := StreamSplits(files, i);
      EntryIsLaidOut(before, files[i], after);
    }
    if files != [] { assert |files| - 1 + 1 == |files|; }
  }

  // ------------------------------ unique decoding ------------------------------

  ghost predicate Encodable(f: File) {
    NUL !in f.path && |f.content| < Pow(8)
  }

  /** A NUL-free path is read off up to the first NUL. */
  lemma PathIsDelimited(p: Path, q: Path, x: seq<Byte>, y: seq<Byte>)
    requires NUL !in p && NUL !in q && p + [NUL] + x == q + [NUL] + y
    ensures p == q && x == y
  {
    var whole := p + [NUL] + x;
    assert whole == q + [NUL] + y;
    assert forall i :: 0 <= i < |p| ==> whole[i] == p[i];
    assert forall i :: 0 <= i < |q| ==> whole[i] == q[i];
    assert whole[|p|] == NUL && whole[|q|] == NUL;
    assert |p| == |q|;
    assert p == whole[..|p|] && q == whole[..|q|];
    assert x == whole[|p| + 1..] && y == whole[|q| + 1..];
  }

  /** A length in eight bytes and that many bytes are read off. */
  lemma ContentIsDelimited(c: seq<Byte>, d: seq<Byte>, x: seq<Byte>, y: seq<Byte>)
    requires |c| < Pow(8) && |d| < Pow(8) && Little(|c|, 8) + (c + x) == Little(|d|, 8) + (d + y)
    ensures c == d && x == y
  {
    var a, b := Little(|c|, 8), Little(|d|, 8);
    assert a == (a + (c + x))[..8] && b == (b + (d + y))[..8];
    LittleIsInjective(|c|, |d|, 8);
    SameSplit(a, b, c + x, d + y);
    SameSplit(c, d, x, y);
  }

  lemma SameSplit(a: seq<Byte>, b: seq<Byte>, x: seq<Byte>, y: seq<Byte>)
    requires |a| == |b| && a + x == b + y
    ensures a == b && x == y
  {
    assert a == (a + x)[..|a|] && b == (b + y)[..|b|];
    assert x == (a + x)[|a|..] && y == (b + y)[|b|..];
  }

  lemma EntryIsDelimited(f: File, g: File, x: seq<Byte>, y: seq<Byte>)
    requires Encodable(f) && Encodable(g) && Entry(f) + x == Entry(g) + y
    ensures f == g && x == y
  {
    EntryParts(f, x);
    EntryParts(g, y);
    PathIsDelimited(f.path, g.path, Little(|f.content|, 8) + (f.content + x), Little(|g.content|, 8) + (g.content + y));
    ContentIsDelimited(f.content, g.content, x, y);
  }

  lemma EntryParts(f: File, x: seq<Byte>)
    ensures Entry(f) + x == f.path + [NUL] + (Little(|f.content|, 8) + (f.content + x))
  {
  }

  /** The stream can be cut back into its files in only one way. */
  lemma {:induction false} StreamIsInjective(a: seq<File>, b: seq<File>)
    requires Stream(a) == Stream(b)
    requires (forall i :: 0 <= i < |a| ==> Encodable(a[i])) && (forall i :: 0 <= i < |b| ==> Encodable(b[i]))
    ensures a == b
  {
    if a != [] && b != [] {
      EntryIsDelimited(a[0], b[0], Stream(a[1..]), Stream(b[1..]));
      StreamIsInjective(a[1..], b[1..]);
      assert a == [a[0]] + a[1..] && b == [b[0]] + b[1..];
    }
  }

  /** What a walk of a directory can find: normal NUL-free paths, each once, and contents whose
      length fits the eight bytes it is written in. */
  ghost predicate Walk(files: seq<File>, utf8: Utf8) {
    && (forall i :: 0 <= i < |files| ==> Normalized(files[i].path, utf8) == Ok(files[i].path) && Encodable(files[i]))
    && (forall i, j :: 0 <= i < j < |files| ==> files[i].path != files[j].path)
  }

  /** A package as a map from path to the content that is hashed. */
  ghost function Package(files: seq<File>): map<Path, seq<Byte>> {
    if files == [] then map[]
    else
      var f := files[|files| - 1];
      Package(files[..|files| - 1])[f.path := ForHash(f.content)]
  }

  lemma {:induction false} PackageHolds(files: seq<File>, f: File)
    requires forall i, j :: 0 <= i < j < |files| ==> files[i].path != files[j].path
    ensures (f.path in Package(files) && Package(files)[f.path] == f.content) <==> f in AllHashed(files)
  {
    if files != [] {
      var n := |files| - 1;
      PackageHolds(files[..n], f);
      assert AllHashed(files) == AllHashed(files[..n]) + [Hashed(files[n])];
      if f in AllHashed(files[..n]) {
        var i :| 0 <= i < n && AllHashed(files[..n])[i] == f;
        assert Hashed(files[i]) == f;
      }
    }
  }

  lemma ByPathIsAnOrder()
    ensures Transitive(ByPath) && Asymmetric(ByPath)
  {
    forall a, b, c | ByPath(a, b) && ByPath(b, c) ensures ByPath(a, c) {
      LessIsTransitive(a.path, b.path, c.path);
    }
    forall a, b | ByPath(a, b) ensures !ByPath(b, a) {
      LessIsTotal(a.path, b.path);
    }
  }

  lemma {:induction false} NothingToRename(walked: seq<File>, norm: Path -> Result<Path, PathFault>)
    requires forall i :: 0 <= i < |walked| ==> norm(walked[i].path) == Ok(walked[i].path)
    ensures Renamed(walked, norm) == Ok(walked)
  {
    if walked != [] {
      var n := |walked| - 1;
      NothingToRename(walked[..n], norm);
      assert walked == walked[..n] + [File(walked[n].path, walked[n].content)];
    }
  }

  lemma HashedIsEncodable(f: File)
    requires Encodable(f)
    ensures Encodable(Hashed(f))
  {
    UnpairedLeaves(f.content);
  }

  lemma HashingKeepsOrder(files: seq<File>)
    requires Increasing(files, ByPath)
    ensures Increasing(AllHashed(files), ByPath)
  {
    forall i, j | 0 <= i < j < |files| ensures ByPath(AllHashed(files)[i], AllHashed(files)[j]) {
      assert ByPath(files[i], files[j]);
      assert Hashed(files[i]).path == files[i].path && Hashed(files[j]).path == files[j].path;
    }
  }

  lemma SortedListing(walked: seq<File>, utf8: Utf8)
    requires Walk(walked, utf8)
    ensures Increasing(Sorted(walked, ByPath), ByPath)
    ensures forall f :: f in Sorted(walked, ByPath) <==> f in walked
  {
    ByPathIsAnOrder();
    forall i, j | 0 <= i < |walked| && 0 <= j < |walked| && i != j
      ensures ByPath(walked[i], walked[j]) != ByPath(walked[j], walked[i])
    {
      LessIsTotal(walked[i].path, walked[j].path);
    }
    SortKeeps(walked, ByPath);
  }

  /** The listing that is streamed: in dictionary order of the paths, and exactly the files that were walked. */
  lemma ListingOf(walked: seq<File>, utf8: Utf8) returns (listing: seq<File>)
    requires Walk(walked, utf8)
    ensures Preimage(walked, utf8) == Ok(Stream(listing)) && Increasing(listing, ByPath)
    ensures forall i, j :: 0 <= i < j < |listing| ==> Before(listing[i].path, listing[j].path)
    ensures forall i :: 0 <= i < |listing| ==> Encodable(listing[i])
    ensures forall f :: f in listing <==> f in AllHashed(walked)
  {
    NothingToRename(walked, Normalizer(utf8));
    SortedListing(walked, utf8);
    var sorted := Sorted(walked, ByPath);
    listing := AllHashed(sorted);
    forall i | 0 <= i < |listing| ensures Encodable(listing[i]) {
      assert sorted[i] in walked;
      var k :| 0 <= k < |walked| && walked[k] == sorted[i];
      HashedIsEncodable(walked[k]);
    }
    HashingKeepsOrder(sorted);
    forall i, j | 0 <= i < j < |listing| ensures Before(listing[i].path, listing[j].path) {
      assert ByPath(listing[i], listing[j]);
      LessIff(listing[i].path, listing[j].path);
    }
    EachTogether(sorted, walked, Hashed);
  }

  /** Two directories feed the digest the same bytes exactly when they are the same package: the
      same paths with the same content up to line endings, in whatever order they are walked. */
  lemma SameBytesIffSamePackage(a: seq<File>, b: seq<File>, utf8: Utf8)
    requires Walk(a, utf8) && Walk(b, utf8)
    ensures Preimage(a, utf8).Ok? && Preimage(b, utf8).Ok?
    ensures Preimage(a, utf8) == Preimage(b, utf8) <==> Package(a) == Package(b)
  {
    var x := ListingOf(a, utf8);
    var y := ListingOf(b, utf8);
    if Preimage(a, utf8) == Preimage(b, utf8) {
      StreamIsInjective(x, y);
      forall f ensures f in AllHashed(a) <==> f in AllHashed(b) {
        assert f in x <==> f in y;
      }
      SamePackage(a, b, utf8);
    }
    if Package(a) == Package(b) {
      forall f ensures f in x <==> f in y {
        PackageHolds(a, f);
        PackageHolds(b, f);
      }
      ByPathIsAnOrder();
      IncreasingIsUnique(x, y, ByPath);
    }
  }

  lemma SamePackage(a: seq<File>, b: seq<File>, utf8: Utf8)
    requires Walk(a, utf8) && Walk(b, utf8) && forall f :: f in AllHashed(a) <==> f in AllHashed(b)
    ensures Package(a) == Package(b)
  {
    var p, q := Package(a), Package(b);
    forall path ensures path in p ==> path in q && q[path] == p[path] {
      if path in p {
        PackageHolds(a, File(path, p[path]));
        PackageHolds(b, File(path, p[path]));
      }
    }
    forall path ensures path in q ==> path in p && q[path] == p[path] {
      if path in q {
        PackageHolds(a, File(path, q[path]));
        PackageHolds(b, File(path, q[path]));
      }
    }
  }
}

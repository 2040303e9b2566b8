/** The deterministic archive of a plugin repository, and its extraction. */
module Bundle {
  import opened Bytes
  import opened Order
  import opened RelativePath
  import opened Wrappers

  const MAGIC: seq<Byte> := "HALODPLUG1\n"
  const METADATA_PATH: Path := ".halod-plugin-bundle.yaml"
  const MAX_PATH := 4096
  const MAX_ENTRY := 64 * 1024 * 1024

  datatype Metadata = Metadata(release: string, repositoryId: string, repositoryVersion: string)

  /** The UTF-8 check, and the YAML serialiser of the metadata entry. */
  datatype Codec = Codec(utf8: Utf8, encode: Metadata -> seq<Byte>, decode: seq<Byte> -> Option<Metadata>)

  datatype Fault =
    | PathNotUtf8 | PathTooLong | BadPath(why: PathFault) | EntryTooLarge | Truncated | UnknownFormat
    | DestinationExists | BadMetadata | MetadataMissing | EmptyRelease

  type Tree = map<Path, seq<Byte>>

  // ------------------------------ writing ------------------------------

  predicate PartsLess(a: seq<Path>, b: seq<Path>) {
    b != [] && (a == [] || Less(a[0], b[0]) || (a[0] == b[0] && PartsLess(a[1..], b[1..])))
  }

  /** Paths are ordered component by component, so a directory comes before `name.ext` beside it. */
  predicate ByComponents(a: File, b: File) {
    PartsLess(Split(a.path), Split(b.path))
  }

  function Entry(f: File): seq<Byte> {
    Big(|f.path|, 4) + (f.path + (Big(|f.content|, 8) + f.content))
  }

  function Refused(f: File, utf8: Utf8): Option<Fault> {
    if !utf8(f.path) then Some(PathNotUtf8) else if |f.path| >= Pow(4) then Some(PathTooLong) else None
  }

  /** The entries in order, then the end mark. */
  function Concatenated(files: seq<File>, entry: File -> seq<Byte>, mark: seq<Byte>): seq<Byte> {
    if files == [] then mark else entry(files[0]) + Concatenated(files[1..], entry, mark)
  }

  /** The entries in order and the zero length that ends them. */
  function Entries(files: seq<File>): seq<Byte> {
    Concatenated(files, Entry, Big(0, 4))
  }

  function Refusing(utf8: Utf8): File -> Option<Fault> {
    f => Refused(f, utf8)
  }

  /** `out` after every file and the end mark, or the refusal of the first file that has one. */
  function Appended(
      out: seq<Byte>, files: seq<File>, refused: File -> Option<Fault>, entry: File -> seq<Byte>, mark: seq<Byte>)
    : Result<seq<Byte>, Fault>
    decreases |files|
  {
    if files == [] then Ok(out + mark)
    else if refused(files[0]).Some? then Err(refused(files[0]).value)
    else Appended(out + entry(files[0]), files[1..], refused, entry, mark)
  }

  /** The files in the order they are written, the metadata first. */
  function Listing(meta: Metadata, walked: seq<File>, codec: Codec): seq<File> {
    [File(METADATA_PATH, codec.encode(meta))] + Sorted(walked, ByComponents)
  }

  function Written(meta: Metadata, walked: seq<File>, codec: Codec): Result<seq<Byte>, Fault> {
    Appended(MAGIC, Listing(meta, walked, codec), Refusing(codec.utf8), Entry, Big(0, 4))
  }

  method WriteBundle(id: string, version: string, walked: seq<File>, codec: Codec)
    returns (r: Result<seq<Byte>, Fault>)
    ensures r == Written(Metadata("v" + version, id, version), walked, codec)
  {
    var meta := Metadata("v" + version, id, version);
    r := AppendAll(MAGIC, Listing(meta, walked, codec), codec.utf8);
  }

  method AppendAll(header: seq<Byte>, files: seq<File>, utf8: Utf8) returns (r: Result<seq<Byte>, Fault>)
    ensures r == Appended(header, files, Refusing(utf8), Entry, Big(0, 4))
  {
    var out := header;
    for i := 0 to |files|
      invariant Appended(out, files[i..], Refusing(utf8), Entry, Big(0, 4))
             == Appended(header, files, Refusing(utf8), Entry, Big(0, 4))
    {
      assert files[i..][1..] == files[i + 1..];
      var appended := AppendBundleFile(out, files[i], utf8);
      if appended.Err? {
        return appended;
      }
      out := appended.value;
    }
    return Ok(out + Big(0, 4));
  }

  method AppendBundleFile(out: seq<Byte>, f: File, utf8: Utf8) returns (r: Result<seq<Byte>, Fault>)
    ensures r == if Refused(f, utf8).Some? then Err(Refused(f, utf8).value) else Ok(out + Entry(f))
  {
    if !utf8(f.path) {
      return Err(PathNotUtf8);
    }
    if |f.path| >= Pow(4) {
      return Err(PathTooLong);
    }
    var written := out + Big(|f.path|, 4);
    written := written + f.path;
    written := written + Big(|f.content|, 8);
    written := written + f.content;
    assert written == out + Entry(f);
    return Ok(written);
  }

  // ------------------------------ extracting ------------------------------

  /** The next `n` bytes, or nothing when fewer are left. */
  function ReadExact(bytes: seq<Byte>, at: nat, n: nat): (r: Option<seq<Byte>>)
    ensures r.Some? <==> at + n <= |bytes|
    ensures r.Some? ==> |r.value| == n
  {
    if at + n <= |bytes| then Some(bytes[at..at + n]) else None
  }

  datatype Step = Done | Broken(why: Fault) | Item(path: Path, content: seq<Byte>, used: nat)

  /** The first half of a round: the length and the path, and how many bytes they took. */
  function Header(bytes: seq<Byte>, at: nat, utf8: Utf8): Step {
    var length := ReadExact(bytes, at, 4);
    if length.None? then Broken(Truncated)
    else
      var n := FromBig(length.value);
      if n == 0 then Done
      else if n > MAX_PATH then Broken(PathTooLong)
      else
        var path := ReadExact(bytes, at + 4, n);
        if path.None? then Broken(Truncated)
        else if !utf8(path.value) then Broken(PathNotUtf8)
        else
          var normalized := Normalized(path.value, utf8);
          if normalized.Err? then Broken(BadPath(normalized.error)) else Item(normalized.value, [], 4 + n)
  }

  /** The second half: the size and the content that follow the header. */
  function Body(bytes: seq<Byte>, at: nat, path: Path, before: nat): (step: Step)
    ensures step.Item? ==> 0 < step.used <= |bytes| - at
  {
    var size := ReadExact(bytes, at + before, 8);
    if size.None? then Broken(Truncated)
    else if FromBig(size.value) > MAX_ENTRY then Broken(EntryTooLarge)
    else
      var content := ReadExact(bytes, at + before + 8, FromBig(size.value));
      if content.None? then Broken(Truncated)
      else Item(path, content.value, before + 8 + FromBig(size.value))
  }

  /** One round of the extraction loop. */
  function Next(bytes: seq<Byte>, at: nat, utf8: Utf8): (step: Step)
    ensures step.Item? ==> 0 < step.used <= |bytes| - at
  {
    var header := Header(bytes, at, utf8);
    if header.Item? then Body(bytes, at, header.path, header.used) else header
  }

  /** Either the loop ends with a result, or it goes on with what is on disk and what is known of
      the metadata. */
  datatype Progress =
    | Ended(result: Result<Option<Metadata>, Fault>)
    | Going(tree: Tree, meta: Option<Metadata>)

  function Absorbed(step: Step, tree: Tree, meta: Option<Metadata>, key: Path, codec: Codec): (p: Progress)
    ensures p.Going? ==> step.Item?
  {
    match step
    case Done => Ended(Ok(meta))
    case Broken(why) => Ended(Err(why))
    case Item(path, content, _) =>
      if path != key then Going(tree[path := content], meta)
      else
        var parsed := codec.decode(content);
        if parsed.None? then Ended(Err(BadMetadata)) else Going(tree, parsed)
  }

  type Reader = (seq<Byte>, nat) -> Step

  function Reading(utf8: Utf8): Reader {
    (bytes: seq<Byte>, at: nat) => Next(bytes, at, utf8)
  }

  /** The rounds of the loop, up to the one that ends it. */
  function Steps(bytes: seq<Byte>, at: nat, next: Reader): seq<Step>
    decreases |bytes| - at
  {
    var step := next(bytes, at);
    if step.Item? && 0 < step.used <= |bytes| - at then [step] + Steps(bytes, at + step.used, next) else [step]
  }

  /** What the rounds leave on disk, and what they make of the metadata. */
  function Replayed(steps: seq<Step>, tree: Tree, meta: Option<Metadata>, key: Path, codec: Codec)
    : (Tree, Result<Option<Metadata>, Fault>)
    decreases |steps|
  {
    if steps == [] then (tree, Ok(meta))
    else
      var p := Absorbed(steps[0], tree, meta, key, codec);
      if p.Ended? then (tree, p.result) else Replayed(steps[1..], p.tree, p.meta, key, codec)
  }

  function Unpacked(bytes: seq<Byte>, at: nat, tree: Tree, meta: Option<Metadata>, key: Path, codec: Codec)
    : (Tree, Result<Option<Metadata>, Fault>)
  {
    Replayed(Steps(bytes, at, Reading(codec.utf8)), tree, meta, key, codec)
  }

  function Extracted(bytes: seq<Byte>, occupied: bool, codec: Codec): (Tree, Result<Metadata, Fault>) {
    if occupied then (map[], Err(DestinationExists))
    else if |bytes| < |MAGIC| then (map[], Err(Truncated))
    else if bytes[..|MAGIC|] != MAGIC then (map[], Err(UnknownFormat))
    else
      var (tree, meta) := Unpacked(bytes, |MAGIC|, map[], None, METADATA_PATH, codec);
      (tree, Finished(meta))
  }

  function Finished(meta: Result<Option<Metadata>, Fault>): Result<Metadata, Fault> {
    if meta.Err? then Err(meta.error)
    else if meta.value.None? then Err(MetadataMissing)
    else if meta.value.value.release == "" then Err(EmptyRelease)
    else Ok(meta.value.value)
  }

  method ExtractBundle(bytes: seq<Byte>, occupied: bool, codec: Codec)
    returns (tree: Tree, r: Result<Metadata, Fault>)
    ensures (tree, r) == Extracted(bytes, occupied, codec)
  {
    if occupied {
      return map[], Err(DestinationExists);
    }
    if |bytes| < |MAGIC| {
      return map[], Err(Truncated);
    }
    if bytes[..|MAGIC|] != MAGIC {
      return map[], Err(UnknownFormat);
    }
    var meta;
    tree, meta := Unpack(bytes, |MAGIC|, METADATA_PATH, codec, Reading(codec.utf8));
    r := Finished(meta);
  }

  /** `next` reads as `Next` does; the loop proof sees only `next`, so `Next` need not be unfolded. */
  ghost predicate Follows(next: Reader, utf8: Utf8) {
    forall bytes, at: nat {:trigger Next(bytes, at, utf8)} :: next(bytes, at) == Next(bytes, at, utf8)
  }

  method Unpack(bytes: seq<Byte>, start: nat, key: Path, codec: Codec, ghost next: Reader)
    returns (tree: Tree, r: Result<Option<Metadata>, Fault>)
    requires start <= |bytes| && Follows(next, codec.utf8)
    ensures (tree, r) == Replayed(Steps(bytes, start, next), map[], None, key, codec)
  {
    tree := map[];
    var meta: Option<Metadata> := None;
    var cursor: nat := start;
    while true
      invariant cursor <= |bytes|
      invariant Replayed(Steps(bytes, cursor, next), tree, meta, key, codec)
             == Replayed(Steps(bytes, start, next), map[], None, key, codec)
      decreases |bytes| - cursor
    {
      var step := ReadEntry(bytes, cursor, codec.utf8, next);
      RoundOf(bytes, cursor, next, step, tree, meta, key, codec);
      var p := Absorbed(step, tree, meta, key, codec);
      if p.Ended? {
        return tree, p.result;
      }
      tree, meta, cursor := p.tree, p.meta, cursor + step.used;
    }
  }

  lemma RoundOf(
      bytes: seq<Byte>, at: nat, next: Reader, step: Step,
      tree: Tree, meta: Option<Metadata>, key: Path, codec: Codec)
    requires next(bytes, at) == step && (step.Item? ==> 0 < step.used <= |bytes| - at)
    ensures var p := Absorbed(step, tree, meta, key, codec);
            Replayed(Steps(bytes, at, next), tree, meta, key, codec)
              == if p.Ended? then (tree, p.result)
                 else Replayed(Steps(bytes, at + step.used, next), p.tree, p.meta, key, codec)
  {
    var steps := Steps(bytes, at, next);
    assert steps[0] == step && (step.Item? ==> steps[1..] == Steps(bytes, at + step.used, next));
  }

  method ReadHeader(bytes: seq<Byte>, at: nat, utf8: Utf8) returns (step: Step)
    ensures step == Header(bytes, at, utf8)
  {
    var length := ReadExact(bytes, at, 4);
    if length.None? {
      return Broken(Truncated);
    }
    var n := FromBig(length.value);
    if n == 0 {
      return Done;
    }
    if n > MAX_PATH {
      return Broken(PathTooLong);
    }
    var path := ReadExact(bytes, at + 4, n);
    if path.None? {
      return Broken(Truncated);
    }
    if !utf8(path.value) {
      return Broken(PathNotUtf8);
    }
    var normalized := NormalizedRelativePath(path.value, utf8);
    if normalized.Err? {
      return Broken(BadPath(normalized.error));
    }
    return Item(normalized.value, [], 4 + n);
  }

  method ReadBody(bytes: seq<Byte>, at: nat, path: Path, before: nat) returns (step: Step)
    ensures step == Body(bytes, at, path, before)
  {
    var size := ReadExact(bytes, at + before, 8);
    if size.None? {
      return Broken(Truncated);
    }
    if FromBig(size.value) > MAX_ENTRY {
      return Broken(EntryTooLarge);
    }
    var content := ReadExact(bytes, at + before + 8, FromBig(size.value));
    if content.None? {
      return Broken(Truncated);
    }
    return Item(path, content.value, before + 8 + FromBig(size.value));
  }

  lemma RoundIs(bytes: seq<Byte>, at: nat, utf8: Utf8, header: Step, body: Step)
    requires Header(bytes, at, utf8) == header
    requires header.Item? ==> Body(bytes, at, header.path, header.used) == body
    ensures Next(bytes, at, utf8) == if header.Item? then body else header
  {
  }

  method ReadEntry(bytes: seq<Byte>, at: nat, utf8: Utf8, ghost next: Reader) returns (step: Step)
    requires Follows(next, utf8)
    ensures step == next(bytes, at) && (step.Item? ==> 0 < step.used <= |bytes| - at)
  {
    assert next(bytes, at) == Next(bytes, at, utf8);
    var header := ReadHeader(bytes, at, utf8);
    step := header;
    if header.Item? {
      step := ReadBody(bytes, at, header.path, header.used);
    }
    RoundIs(bytes, at, utf8, header, step);
  }

  // ------------------------------ what extraction leaves on disk ------------------------------

  ghost predicate Below(tree: Tree, allowed: Path -> bool) {
    forall path :: path in tree ==> allowed(path)
  }

  /** The paths a file may be written under: normal ones, save the metadata entry's. */
  function Allowed(utf8: Utf8): Path -> bool {
    path => IsNormal(path, utf8) && path != METADATA_PATH
  }

  lemma ItemIsNormalized(bytes: seq<Byte>, at: nat, utf8: Utf8) returns (raw: Path)
    requires Next(bytes, at, utf8).Item?
    ensures Normalized(raw, utf8) == Ok(Next(bytes, at, utf8).path)
  {
    var n := FromBig(ReadExact(bytes, at, 4).value);
    raw := ReadExact(bytes, at + 4, n).value;
  }

  lemma ItemIsNormal(bytes: seq<Byte>, at: nat, utf8: Utf8)
    requires Next(bytes, at, utf8).Item?
    ensures IsNormal(Next(bytes, at, utf8).path, utf8)
  {
    var raw := ItemIsNormalized(bytes, at, utf8);
    NormalizedIsNormal(raw, utf8);
  }

  ghost predicate Within(step: Step, key: Path, allowed: Path -> bool) {
    step.Item? && step.path != key ==> allowed(step.path)
  }

  lemma {:induction false} StepsAreWithin(bytes: seq<Byte>, at: nat, next: Reader, key: Path, allowed: Path -> bool)
    requires forall i: nat :: Within(next(bytes, i), key, allowed)
    ensures forall i :: 0 <= i < |Steps(bytes, at, next)| ==> Within(Steps(bytes, at, next)[i], key, allowed)
    decreases |bytes| - at
  {
    var step := next(bytes, at);
    assert Within(step, key, allowed);
    if step.Item? && 0 < step.used <= |bytes| - at {
      StepsAreWithin(bytes, at + step.used, next, key, allowed);
    }
  }

  lemma {:induction false} ReplayStaysBelow(
      steps: seq<Step>, tree: Tree, meta: Option<Metadata>, key: Path, codec: Codec, allowed: Path -> bool)
    requires Below(tree, allowed) && forall i :: 0 <= i < |steps| ==> Within(steps[i], key, allowed)
    ensures Below(Replayed(steps, tree, meta, key, codec).0, allowed)
    decreases |steps|
  {
    if steps != [] {
      var p := Absorbed(steps[0], tree, meta, key, codec);
      assert Within(steps[0], key, allowed);
      if p.Going? {
        ReplayStaysBelow(steps[1..], p.tree, p.meta, key, codec, allowed);
      }
    }
  }

  /** Whatever the bytes, and even when extraction fails half way: every file written has a normal
      path, so none escapes the destination, and none is the metadata entry. */
  lemma ExtractionStaysBelow(bytes: seq<Byte>, occupied: bool, codec: Codec)
    ensures forall path :: path in Extracted(bytes, occupied, codec).0 ==>
              IsNormal(path, codec.utf8) && path != METADATA_PATH
  {
    if !occupied && |MAGIC| <= |bytes| {
      var next, key, allowed := Reading(codec.utf8), METADATA_PATH, Allowed(codec.utf8);
      forall i: nat ensures Within(next(bytes, i), key, allowed) {
        if Next(bytes, i, codec.utf8).Item? { ItemIsNormal(bytes, i, codec.utf8); }
      }
      StepsAreWithin(bytes, |MAGIC|, next, key, allowed);
      ReplayStaysBelow(Steps(bytes, |MAGIC|, next), map[], None, key, codec, allowed);
      assert forall path :: allowed(path) ==> IsNormal(path, codec.utf8) && path != METADATA_PATH;
    }
  }

  // ------------------------------ round trip ------------------------------

  /** A path is read back as it was written. */
  lemma ReadsBack(bytes: seq<Byte>, at: nat, x: seq<Byte>, y: seq<Byte>)
    requires at <= |bytes| && bytes[at..] == x + y
    ensures ReadExact(bytes, at, |x|) == Some(x) && at + |x| <= |bytes| && bytes[at + |x|..] == y
  {
    assert |bytes| - at == |x| + |y|;
    assert bytes[at..at + |x|] == (x + y)[..|x|] == x;
    assert bytes[at + |x|..] == (x + y)[|x|..] == y;
  }

  lemma EntryFields(bytes: seq<Byte>, at: nat, f: File, rest: seq<Byte>)
    requires at <= |bytes| && bytes[at..] == Entry(f) + rest
    ensures |Entry(f)| == 12 + |f.path| + |f.content| && at + |Entry(f)| <= |bytes|
    ensures bytes[at + |Entry(f)|..] == rest
    ensures ReadExact(bytes, at, 4) == Some(Big(|f.path|, 4))
    ensures ReadExact(bytes, at + 4, |f.path|) == Some(f.path)
    ensures ReadExact(bytes, at + 4 + |f.path|, 8) == Some(Big(|f.content|, 8))
    ensures ReadExact(bytes, at + 12 + |f.path|, |f.content|) == Some(f.content)
  {
    var length, size := Big(|f.path|, 4), Big(|f.content|, 8);
    assert bytes[at..] == length + (f.path + (size + (f.content + rest)));
    ReadsBack(bytes, at, length, f.path + (size + (f.content + rest)));
    ReadsBack(bytes, at + 4, f.path, size + (f.content + rest));
    ReadsBack(bytes, at + 4 + |f.path|, size, f.content + rest);
    ReadsBack(bytes, at + 12 + |f.path|, f.content, rest);
  }

  /** What the first half of a round makes of a written file. */
  function HeaderVerdict(f: File, utf8: Utf8): Step {
    if f.path == [] then Done
    else if |f.path| > MAX_PATH then Broken(PathTooLong)
    else if !utf8(f.path) then Broken(PathNotUtf8)
    else
      var normalized := Normalized(f.path, utf8);
      if normalized.Err? then Broken(BadPath(normalized.error)) else Item(normalized.value, [], 4 + |f.path|)
  }

  /** What the second half of a round makes of it. */
  function BodyVerdict(f: File, path: Path): Step {
    if |f.content| > MAX_ENTRY then Broken(EntryTooLarge)
    else Item(path, f.content, 12 + |f.path| + |f.content|)
  }

  /** What the extraction makes of an entry that was written. */
  function Verdict(f: File, utf8: Utf8): Step {
    var header := HeaderVerdict(f, utf8);
    if header.Item? then BodyVerdict(f, header.path) else header
  }

  lemma HeaderReadsBack(bytes: seq<Byte>, at: nat, f: File, utf8: Utf8)
    requires |f.path| < Pow(4)
    requires ReadExact(bytes, at, 4) == Some(Big(|f.path|, 4)) && ReadExact(bytes, at + 4, |f.path|) == Some(f.path)
    ensures Header(bytes, at, utf8) == HeaderVerdict(f, utf8)
  {
    BigRoundTrip(|f.path|, 4);
  }

  lemma BodyReadsBack(bytes: seq<Byte>, at: nat, f: File, path: Path)
    requires |f.content| < Pow(8)
    requires ReadExact(bytes, at + 4 + |f.path|, 8) == Some(Big(|f.content|, 8))
    requires ReadExact(bytes, at + 12 + |f.path|, |f.content|) == Some(f.content)
    ensures Body(bytes, at, path, 4 + |f.path|) == BodyVerdict(f, path)
  {
    BigRoundTrip(|f.content|, 8);
    assert at + (4 + |f.path|) == at + 4 + |f.path| && at + (4 + |f.path|) + 8 == at + 12 + |f.path|;
  }

  /** Lengths that the four and eight bytes they are written in can hold. */
  ghost predicate Sized(f: File) {
    |f.path| < Pow(4) && |f.content| < Pow(8)
  }

  lemma FieldsReadBack(bytes: seq<Byte>, at: nat, f: File, path: Path, utf8: Utf8)
    requires Sized(f)
    requires ReadExact(bytes, at, 4) == Some(Big(|f.path|, 4)) && ReadExact(bytes, at + 4, |f.path|) == Some(f.path)
    requires ReadExact(bytes, at + 4 + |f.path|, 8) == Some(Big(|f.content|, 8))
    requires ReadExact(bytes, at + 12 + |f.path|, |f.content|) == Some(f.content)
    ensures Header(bytes, at, utf8) == HeaderVerdict(f, utf8)
    ensures Body(bytes, at, path, 4 + |f.path|) == BodyVerdict(f, path)
  {
    HeaderReadsBack(bytes, at, f, utf8);
    BodyReadsBack(bytes, at, f, path);
  }

  lemma EntryReadsBack(bytes: seq<Byte>, at: nat, f: File, rest: seq<Byte>, utf8: Utf8)
    requires at <= |bytes| && bytes[at..] == Entry(f) + rest && Sized(f)
    ensures Next(bytes, at, utf8) == Verdict(f, utf8)
  {
    var header := HeaderVerdict(f, utf8);
    var path := if header.Item? then header.path else [];
    EntryFields(bytes, at, f, rest);
    FieldsReadBack(bytes, at, f, path, utf8);
    RoundIs(bytes, at, utf8, header, BodyVerdict(f, path));
  }

  /** What becomes of an entry as it stands in the bytes: the end without a path, the fault of the first thing
      wrong with it, or the file under its normal path. */
  lemma EntryIsTakenIff(bytes: seq<Byte>, at: nat, f: File, rest: seq<Byte>, utf8: Utf8)
    requires at <= |bytes| && bytes[at..] == Entry(f) + rest && Sized(f)
    ensures var (step, path) := (Next(bytes, at, utf8), Normalized(f.path, utf8));
            && (step == Done <==> f.path == [])
            && (step == Broken(PathTooLong) <==> |f.path| > 4096)
            && (step == Broken(PathNotUtf8) <==> 0 < |f.path| <= 4096 && !utf8(f.path))
            && (forall why :: step == Broken(BadPath(why)) <==>
                  0 < |f.path| <= 4096 && utf8(f.path) && path == Err(why))
            && (step == Broken(EntryTooLarge) <==>
                  0 < |f.path| <= 4096 && utf8(f.path) && path.Ok? && |f.content| > 67_108_864)
            && (step.Item? <==> 0 < |f.path| <= 4096 && utf8(f.path) && path.Ok? && |f.content| <= 67_108_864)
            && (step.Item? ==> step == Item(path.value, f.content, |Entry(f)|))
  {
    EntryReadsBack(bytes, at, f, rest, utf8);
  }

  /** The rounds that read written files back. */
  ghost function Verdicts(files: seq<File>, verdict: File -> Step): seq<Step> {
    if files == [] then [Done]
    else if verdict(files[0]).Item? then [verdict(files[0])] + Verdicts(files[1..], verdict)
    else [verdict(files[0])]
  }

  function Judging(utf8: Utf8): File -> Step {
    f => Verdict(f, utf8)
  }

  ghost predicate AllSized(files: seq<File>) {
    files == [] || (Sized(files[0]) && AllSized(files[1..]))
  }

  /** A reader that gives a written file its verdict, and knows the end mark. */
  ghost predicate ReadsFiles(next: Reader, verdict: File -> Step, entry: File -> seq<Byte>, mark: seq<Byte>) {
    && (forall bytes, at: nat, f {:trigger next(bytes, at), verdict(f)} ::
          at <= |bytes| && entry(f) <= bytes[at..] && Sized(f) ==> next(bytes, at) == verdict(f))
    && (forall bytes, at: nat {:trigger next(bytes, at)} ::
          at <= |bytes| && bytes[at..] == mark ==> next(bytes, at) == Done)
    && (forall f :: verdict(f).Item? ==> verdict(f).used == |entry(f)| > 0)
  }

  lemma EndMark(bytes: seq<Byte>, at: nat, utf8: Utf8)
    requires at <= |bytes| && bytes[at..] == Big(0, 4)
    ensures Next(bytes, at, utf8) == Done
  {
    WideEnough();
    assert bytes[at..] == Big(0, 4) + [];
    ReadsBack(bytes, at, Big(0, 4), []);
    BigRoundTrip(0, 4);
  }

  lemma ReadingReadsFiles(utf8: Utf8)
    ensures ReadsFiles(Reading(utf8), Judging(utf8), Entry, Big(0, 4))
  {
    var next, verdict := Reading(utf8), Judging(utf8);
    forall bytes, at: nat, f | at <= |bytes| && Entry(f) <= bytes[at..] && Sized(f)
      ensures next(bytes, at) == verdict(f)
    {
      assert bytes[at..] == Entry(f) + bytes[at..][|Entry(f)|..];
      EntryReadsBack(bytes, at, f, bytes[at..][|Entry(f)|..], utf8);
    }
    forall bytes, at: nat | at <= |bytes| && bytes[at..] == Big(0, 4) ensures next(bytes, at) == Done {
      EndMark(bytes, at, utf8);
    }
  }

  lemma NextSlice(bytes: seq<Byte>, at: nat, e: seq<Byte>, rest: seq<Byte>)
    requires at <= |bytes| && bytes[at..] == e + rest
    ensures e <= bytes[at..] && at + |e| <= |bytes| && bytes[at + |e|..] == rest
  {
    assert bytes[at + |e|..] == (e + rest)[|e|..];
  }

  lemma {:induction false} StepsAreVerdicts(
      bytes: seq<Byte>, at: nat, files: seq<File>,
      next: Reader, verdict: File -> Step, entry: File -> seq<Byte>, mark: seq<Byte>)
    requires ReadsFiles(next, verdict, entry, mark) && AllSized(files)
    requires at <= |bytes| && bytes[at..] == Concatenated(files, entry, mark)
    ensures Steps(bytes, at, next) == Verdicts(files, verdict)
    decreases |files|
  {
    if files != [] {
      var e, rest := entry(files[0]), Concatenated(files[1..], entry, mark);
      NextSlice(bytes, at, e, rest);
      assert next(bytes, at) == verdict(files[0]);
      if verdict(files[0]).Item? {
        StepsAreVerdicts(bytes, at + |e|, files[1..], next, verdict, entry, mark);
      }
    }
  }

  lemma {:induction false} AppendedIsConcatenated(
      out: seq<Byte>, files: seq<File>, refused: File -> Option<Fault>, entry: File -> seq<Byte>, mark: seq<Byte>)
    ensures Appended(out, files, refused, entry, mark).Ok? <==> forall i :: 0 <= i < |files| ==> refused(files[i]).None?
    ensures Appended(out, files, refused, entry, mark).Ok? ==>
              Appended(out, files, refused, entry, mark).value == out + Concatenated(files, entry, mark)
    decreases |files|
  {
    if files != [] && refused(files[0]).None? {
      var e, rest := entry(files[0]), Concatenated(files[1..], entry, mark);
      AppendedIsConcatenated(out + e, files[1..], refused, entry, mark);
      assert out + (e + rest) == out + e + rest;
      assert files == [files[0]] + files[1..];
    }
  }

  lemma MetadataPathIsNormal(utf8: Utf8)
    requires utf8(METADATA_PATH)
    ensures Normalized(METADATA_PATH, utf8) == Ok(METADATA_PATH) && 0 < |METADATA_PATH| <= MAX_PATH
  {
    var name := METADATA_PATH;
    assert |name| == 25 && name[0] == '.' && name[1] == 'h';
    assert forall i :: 0 <= i < |name| ==> name[i] != '/';
    NameIsNormal(name, utf8);
  }

  /** The files laid one after another onto a tree. */
  ghost function Laid(tree: Tree, files: seq<File>): Tree
    decreases |files|
  {
    if files == [] then tree else Laid(tree[files[0].path := files[0].content], files[1..])
  }

  /** What a file must be for the extraction to give it back. */
  predicate Fits(f: File, utf8: Utf8) {
    && utf8(f.path) && Normalized(f.path, utf8) == Ok(f.path) && f.path != METADATA_PATH
    && |f.path| <= 4096 && |f.content| <= 67_108_864
  }

  function Fitting(utf8: Utf8): File -> bool {
    f => Fits(f, utf8)
  }

  /** A verdict that takes exactly the fitting files as they are. */
  ghost predicate TakesFitting(verdict: File -> Step, key: Path, allowed: Path -> bool, fits: File -> bool) {
    && (forall f :: Within(verdict(f), key, allowed))
    && (forall f: File :: fits(f) ==> f.path != key && verdict(f) == Item(f.path, f.content, |Entry(f)|))
    && (forall f: File :: allowed(f.path) && !verdict(f).Broken? ==> fits(f))
  }

  lemma JudgingTakesFitting(utf8: Utf8)
    ensures TakesFitting(Judging(utf8), METADATA_PATH, Allowed(utf8), Fitting(utf8))
  {
    var verdict, key, allowed, fits := Judging(utf8), METADATA_PATH, Allowed(utf8), Fitting(utf8);
    forall f ensures Within(verdict(f), key, allowed) {
      NormalizedIsNormal(f.path, utf8);
    }
    forall f: File | allowed(f.path) && !verdict(f).Broken? ensures fits(f) {
      NormalizedIsNormal(f.path, utf8);
    }
    forall f: File | fits(f) ensures f.path != key && verdict(f) == Item(f.path, f.content, |Entry(f)|) {
      assert Fits(f, utf8);
    }
  }

  lemma {:induction false} FittingLand(
      files: seq<File>, tree: Tree, meta: Option<Metadata>, key: Path, codec: Codec,
      verdict: File -> Step, allowed: Path -> bool, fits: File -> bool)
    requires TakesFitting(verdict, key, allowed, fits) && forall i :: 0 <= i < |files| ==> fits(files[i])
    ensures Replayed(Verdicts(files, verdict), tree, meta, key, codec) == (Laid(tree, files), Ok(meta))
    decreases |files|
  {
    if files != [] {
      var f := files[0];
      assert fits(f);
      FittingLand(files[1..], tree[f.path := f.content], meta, key, codec, verdict, allowed, fits);
      assert Verdicts(files, verdict)[1..] == Verdicts(files[1..], verdict);
    }
  }

  lemma {:induction false} VerdictsAreWithin(files: seq<File>, verdict: File -> Step, key: Path, allowed: Path -> bool)
    requires forall f :: Within(verdict(f), key, allowed)
    ensures forall i :: 0 <= i < |Verdicts(files, verdict)| ==> Within(Verdicts(files, verdict)[i], key, allowed)
  {
    if files != [] {
      assert Within(verdict(files[0]), key, allowed);
      VerdictsAreWithin(files[1..], verdict, key, allowed);
    }
  }

  /** When extraction ends well and every file is there, every file fitted. */
  lemma {:induction false} LandedFit(
      files: seq<File>, tree: Tree, meta: Option<Metadata>, key: Path, codec: Codec,
      verdict: File -> Step, allowed: Path -> bool, fits: File -> bool)
    requires TakesFitting(verdict, key, allowed, fits) && Below(tree, allowed)
    requires var (end, r) := Replayed(Verdicts(files, verdict), tree, meta, key, codec);
             r.Ok? && forall i :: 0 <= i < |files| ==> files[i].path in end
    ensures forall i :: 0 <= i < |files| ==> fits(files[i])
    decreases |files|
  {
    if files != [] {
      var f, steps := files[0], Verdicts(files, verdict);
      VerdictsAreWithin(files, verdict, key, allowed);
      ReplayStaysBelow(steps, tree, meta, key, codec, allowed);
      assert f.path in Replayed(steps, tree, meta, key, codec).0;
      assert allowed(f.path) && steps[0] == verdict(f) && !verdict(f).Broken?;
      assert fits(f);
      assert steps[1..] == Verdicts(files[1..], verdict);
      LandedFit(files[1..], tree[f.path := f.content], meta, key, codec, verdict, allowed, fits);
      assert files == [f] + files[1..];
    }
  }

  /** Nothing is written over a destination that exists, or from bytes that do not begin with the format's
      name; and no metadata without a release is ever returned. */
  lemma OnlyBundlesAreRead(bytes: seq<Byte>, codec: Codec)
    ensures Extracted(bytes, true, codec) == (map[], Err(DestinationExists))
    ensures !("HALODPLUG1\n" <= bytes) ==>
              Extracted(bytes, false, codec) == (map[], Err(if |bytes| < 11 then Truncated else UnknownFormat))
    ensures Extracted(bytes, false, codec).1.Ok? ==> Extracted(bytes, false, codec).1.value.release != ""
  {
  }

  /** Metadata that does not parse ends the extraction; of several that do, the last counts. */
  lemma {:induction false} LastMetadataCounts(
      steps: seq<Step>, tree: Tree, meta: Option<Metadata>, key: Path, codec: Codec, k: nat)
    requires k < |steps| && steps[k].Item? && steps[k].path == key
    requires forall i :: 0 <= i < k ==>
               steps[i].Item? && (steps[i].path == key ==> codec.decode(steps[i].content).Some?)
    requires forall i :: k < i < |steps| - 1 ==> steps[i].Item? && steps[i].path != key
    ensures codec.decode(steps[k].content).None? ==>
              Replayed(steps, tree, meta, key, codec).1 == Err(BadMetadata)
    ensures codec.decode(steps[k].content).Some? && k < |steps| - 1 && steps[|steps| - 1] == Done ==>
              Replayed(steps, tree, meta, key, codec).1 == Ok(codec.decode(steps[k].content))
    decreases |steps|
  {
    var p := Absorbed(steps[0], tree, meta, key, codec);
    if k > 0 {
      LastMetadataCounts(steps[1..], p.tree, p.meta, key, codec, k - 1);
    } else if p.Going? && |steps| > 1 && steps[|steps| - 1] == Done {
      OthersLeaveMetadata(steps[1..], p.tree, p.meta, key, codec);
    }
  }

  lemma {:induction false} OthersLeaveMetadata(
      steps: seq<Step>, tree: Tree, meta: Option<Metadata>, key: Path, codec: Codec)
    requires steps != [] && steps[|steps| - 1] == Done
    requires forall i :: 0 <= i < |steps| - 1 ==> steps[i].Item? && steps[i].path != key
    ensures Replayed(steps, tree, meta, key, codec).1 == Ok(meta)
    decreases |steps|
  {
    if |steps| > 1 {
      var p := Absorbed(steps[0], tree, meta, key, codec);
      OthersLeaveMetadata(steps[1..], p.tree, p.meta, key, codec);
    }
  }

  // ------------------------------ a bundle cut short ------------------------------

  lemma ReadsShort(bytes: seq<Byte>, at: nat, n: nat, k: nat)
    requires at <= k <= |bytes|
    ensures ReadExact(bytes[..k], at, n) == if at + n <= k then ReadExact(bytes, at, n) else None
  {
    if at + n <= k {
      assert bytes[..k][at..at + n] == bytes[at..at + n];
    }
  }

  lemma HeaderShort(bytes: seq<Byte>, at: nat, n: nat, utf8: Utf8, k: nat)
    requires at <= k <= |bytes| && Header(bytes, at, utf8).Item? && Header(bytes, at, utf8).used == 4 + n
    ensures Header(bytes[..k], at, utf8) == if at + 4 + n <= k then Header(bytes, at, utf8) else Broken(Truncated)
  {
    ReadsShort(bytes, at, 4, k);
    if at + 4 <= k { ReadsShort(bytes, at + 4, n, k); }
  }

  lemma BodyShort(bytes: seq<Byte>, at: nat, path: Path, before: nat, k: nat)
    requires at + before <= k <= |bytes| && Body(bytes, at, path, before).Item?
    ensures Body(bytes[..k], at, path, before) ==
            if at + Body(bytes, at, path, before).used <= k then Body(bytes, at, path, before) else Broken(Truncated)
  {
    ReadsShort(bytes, at + before, 8, k);
    if at + before + 8 <= k {
      ReadsShort(bytes, at + before + 8, FromBig(ReadExact(bytes, at + before, 8).value), k);
    }
  }

  /** An entry that would be taken is truncated wherever it is cut, and taken if the cut is behind it. */
  lemma NextShort(bytes: seq<Byte>, at: nat, utf8: Utf8, k: nat)
    requires at <= k <= |bytes| && Next(bytes, at, utf8).Item?
    ensures Next(bytes[..k], at, utf8) ==
            if at + Next(bytes, at, utf8).used <= k then Next(bytes, at, utf8) else Broken(Truncated)
  {
    var header := Header(bytes, at, utf8);
    var body := Body(bytes, at, header.path, header.used);
    RoundIs(bytes, at, utf8, header, body);
    HeaderShort(bytes, at, header.used - 4, utf8, k);
    if at + header.used <= k {
      BodyShort(bytes, at, header.path, header.used, k);
      RoundIs(bytes[..k], at, utf8, header, Body(bytes[..k], at, header.path, header.used));
    } else {
      RoundIs(bytes[..k], at, utf8, Broken(Truncated), body);
    }
  }

  lemma MarkShort(bytes: seq<Byte>, at: nat, utf8: Utf8, k: nat)
    requires at <= k < at + 4 && k <= |bytes|
    ensures Next(bytes[..k], at, utf8) == Broken(Truncated)
  {
    ReadsShort(bytes, at, 4, k);
    RoundIs(bytes[..k], at, utf8, Broken(Truncated), Done);
  }

  /** Cut at `k`, what the reader finds at `at` is truncated, unless the cut is behind it. */
  ghost predicate NoticesCut(next: Reader, bytes: seq<Byte>, at: nat, k: nat)
    requires at <= k <= |bytes|
  {
    && (next(bytes, at).Item? ==>
          next(bytes[..k], at) == if at + next(bytes, at).used <= k then next(bytes, at) else Broken(Truncated))
    && (k < at + 4 ==> next(bytes[..k], at) == Broken(Truncated))
  }

  ghost predicate NoticesCuts(next: Reader) {
    forall bytes, at: nat, k: nat :: at <= k <= |bytes| ==> NoticesCut(next, bytes, at, k)
  }

  lemma ReadingNoticesCuts(utf8: Utf8)
    ensures NoticesCuts(Reading(utf8))
  {
    var next := Reading(utf8);
    forall bytes: seq<Byte>, at: nat, k: nat | at <= k <= |bytes| ensures NoticesCut(next, bytes, at, k) {
      if next(bytes, at).Item? { NextShort(bytes, at, utf8, k); }
      if k < at + 4 { MarkShort(bytes, at, utf8, k); }
    }
  }

  /** The rounds that read the first `left` bytes of written files: the entries that are whole, and then one
      that is not. */
  ghost function CutVerdicts(files: seq<File>, verdict: File -> Step, entry: File -> seq<Byte>, left: nat): seq<Step>
    decreases |files|
  {
    if files == [] || left < |entry(files[0])| then [Broken(Truncated)]
    else [verdict(files[0])] + CutVerdicts(files[1..], verdict, entry, left - |entry(files[0])|)
  }

  /** One round over the first `k` bytes, at a place where written files begin. */
  ghost predicate CutRound(
      rounds: nat -> seq<Step>, here: (nat, seq<File>) -> bool, verdict: File -> Step, entry: File -> seq<Byte>,
      k: nat, at: nat, files: seq<File>)
  {
    here(at, files) && at <= k ==>
      if files == [] || at + |entry(files[0])| > k then rounds(at) == [Broken(Truncated)]
      else
        && here(at + |entry(files[0])|, files[1..])
        && rounds(at) == [verdict(files[0])] + rounds(at + |entry(files[0])|)
  }

  lemma {:induction false} CutRounds(
      rounds: nat -> seq<Step>, here: (nat, seq<File>) -> bool, verdict: File -> Step, entry: File -> seq<Byte>,
      k: nat, at: nat, files: seq<File>)
    requires forall a: nat, fs :: CutRound(rounds, here, verdict, entry, k, a, fs)
    requires here(at, files) && at <= k
    ensures rounds(at) == CutVerdicts(files, verdict, entry, k - at)
    decreases |files|
  {
    assert CutRound(rounds, here, verdict, entry, k, at, files);
    if files != [] && at + |entry(files[0])| <= k {
      CutRounds(rounds, here, verdict, entry, k, at + |entry(files[0])|, files[1..]);
    }
  }

  /** The written files from `at` on, all of which would be taken. */
  ghost predicate Here(
      bytes: seq<Byte>, at: nat, files: seq<File>, key: Path, codec: Codec,
      verdict: File -> Step, entry: File -> seq<Byte>, mark: seq<Byte>)
  {
    && at <= |bytes| && bytes[at..] == Concatenated(files, entry, mark)
    && AllSized(files) && AllTaken(files, verdict, key, codec)
  }

  lemma OneCut(
      bytes: seq<Byte>, at: nat, files: seq<File>, k: nat, key: Path, codec: Codec,
      next: Reader, verdict: File -> Step, entry: File -> seq<Byte>, mark: seq<Byte>)
    requires ReadsFiles(next, verdict, entry, mark) && NoticesCuts(next) && |mark| == 4
    requires Here(bytes, at, files, key, codec, verdict, entry, mark) && at <= k < |bytes|
    ensures if files == [] || at + |entry(files[0])| > k then Steps(bytes[..k], at, next) == [Broken(Truncated)]
            else
              && Here(bytes, at + |entry(files[0])|, files[1..], key, codec, verdict, entry, mark)
              && Steps(bytes[..k], at, next)
                   == [verdict(files[0])] + Steps(bytes[..k], at + |entry(files[0])|, next)
  {
    if files == [] {
      MarkCut(bytes, at, k, next);
    } else {
      NextSlice(bytes, at, entry(files[0]), Concatenated(files[1..], entry, mark));
      FirstCut(bytes, at, files[0], k, next, verdict, entry, mark);
    }
  }

  lemma StepsCut(
      bytes: seq<Byte>, at: nat, files: seq<File>, k: nat, key: Path, codec: Codec,
      next: Reader, verdict: File -> Step, entry: File -> seq<Byte>, mark: seq<Byte>)
    requires ReadsFiles(next, verdict, entry, mark) && NoticesCuts(next) && |mark| == 4
    requires Here(bytes, at, files, key, codec, verdict, entry, mark) && at <= k < |bytes|
    ensures Steps(bytes[..k], at, next) == CutVerdicts(files, verdict, entry, k - at)
  {
    var rounds := (a: nat) => Steps(bytes[..k], a, next);
    var here := (a: nat, fs) => Here(bytes, a, fs, key, codec, verdict, entry, mark);
    forall a: nat, fs ensures CutRound(rounds, here, verdict, entry, k, a, fs) {
      if here(a, fs) && a <= k { OneCut(bytes, a, fs, k, key, codec, next, verdict, entry, mark); }
    }
    CutRounds(rounds, here, verdict, entry, k, at, files);
  }

  lemma MarkCut(bytes: seq<Byte>, at: nat, k: nat, next: Reader)
    requires NoticesCuts(next) && at <= k <= |bytes| && k < at + 4
    ensures Steps(bytes[..k], at, next) == [Broken(Truncated)]
  {
    assert NoticesCut(next, bytes, at, k);
  }

  lemma FirstCut(
      bytes: seq<Byte>, at: nat, f: File, k: nat,
      next: Reader, verdict: File -> Step, entry: File -> seq<Byte>, mark: seq<Byte>)
    requires ReadsFiles(next, verdict, entry, mark) && NoticesCuts(next) && Sized(f) && verdict(f).Item?
    requires at <= k <= |bytes| && entry(f) <= bytes[at..]
    ensures |entry(f)| > 0
    ensures Steps(bytes[..k], at, next) ==
            if at + |entry(f)| <= k then [verdict(f)] + Steps(bytes[..k], at + |entry(f)|, next)
            else [Broken(Truncated)]
  {
    assert next(bytes, at) == verdict(f);
    assert NoticesCut(next, bytes, at, k);
    assert verdict(f).used == |entry(f)| > 0;
  }

  /** An entry that is taken, and parses if it is the metadata's. */
  ghost predicate Taken(f: File, verdict: File -> Step, key: Path, codec: Codec) {
    verdict(f).Item? && (verdict(f).path == key ==> codec.decode(verdict(f).content).Some?)
  }

  ghost predicate AllTaken(files: seq<File>, verdict: File -> Step, key: Path, codec: Codec) {
    files == [] || (Taken(files[0], verdict, key, codec) && AllTaken(files[1..], verdict, key, codec))
  }

  lemma {:induction false} TakenEach(files: seq<File>, verdict: File -> Step, key: Path, codec: Codec)
    requires forall i :: 0 <= i < |files| ==> Taken(files[i], verdict, key, codec)
    ensures AllTaken(files, verdict, key, codec)
  {
    if files != [] { TakenEach(files[1..], verdict, key, codec); }
  }

  lemma CutListing(bytes: seq<Byte>, magic: seq<Byte>, files: seq<File>, k: nat, key: Path, codec: Codec)
    requires bytes == magic + Entries(files) && |magic| <= k < |bytes| && AllSized(files)
    requires AllTaken(files, Judging(codec.utf8), key, codec)
    ensures Unpacked(bytes[..k], |magic|, map[], None, key, codec).1 == Err(Truncated)
  {
    var next, verdict := Reading(codec.utf8), Judging(codec.utf8);
    ReadingReadsFiles(codec.utf8);
    ReadingNoticesCuts(codec.utf8);
    SameStart(magic, Entries(files));
    CutReplay(bytes, |magic|, files, k, key, codec, next, verdict, Entry, Big(0, 4));
  }

  lemma CutReplay(
      bytes: seq<Byte>, at: nat, files: seq<File>, k: nat, key: Path, codec: Codec,
      next: Reader, verdict: File -> Step, entry: File -> seq<Byte>, mark: seq<Byte>)
    requires ReadsFiles(next, verdict, entry, mark) && NoticesCuts(next) && AllSized(files) && |mark| == 4
    requires at <= k < |bytes| && bytes[at..] == Concatenated(files, entry, mark)
    requires AllTaken(files, verdict, key, codec)
    ensures Replayed(Steps(bytes[..k], at, next), map[], None, key, codec).1 == Err(Truncated)
  {
    StepsCut(bytes, at, files, k, key, codec, next, verdict, entry, mark);
    TruncatedReplay(files, verdict, entry, k - at, map[], None, key, codec);
  }

  lemma {:induction false} TruncatedReplay(
      files: seq<File>, verdict: File -> Step, entry: File -> seq<Byte>, left: nat,
      tree: Tree, meta: Option<Metadata>, key: Path, codec: Codec)
    requires AllTaken(files, verdict, key, codec)
    ensures Replayed(CutVerdicts(files, verdict, entry, left), tree, meta, key, codec).1 == Err(Truncated)
    decreases |files|
  {
    var steps := CutVerdicts(files, verdict, entry, left);
    if files != [] && left >= |entry(files[0])| {
      var p := Absorbed(verdict(files[0]), tree, meta, key, codec);
      var rest := left - |entry(files[0])|;
      assert steps[1..] == CutVerdicts(files[1..], verdict, entry, rest);
      TruncatedReplay(files[1..], verdict, entry, rest, p.tree, p.meta, key, codec);
    }
  }

  // ------------------------------ the walk's order ------------------------------

  lemma {:induction false} PartsLessIsTotal(a: seq<Path>, b: seq<Path>)
    ensures PartsLess(a, b) || PartsLess(b, a) || a == b
    ensures !(PartsLess(a, b) && PartsLess(b, a)) && (a == b ==> !PartsLess(a, b))
  {
    if a != [] && b != [] {
      LessIsTotal(a[0], b[0]);
      if a[0] == b[0] {
        PartsLessIsTotal(a[1..], b[1..]);
        assert a == [a[0]] + a[1..] && b == [b[0]] + b[1..];
      }
    }
  }

  lemma {:induction false} PartsLessIsTransitive(a: seq<Path>, b: seq<Path>, c: seq<Path>)
    requires PartsLess(a, b) && PartsLess(b, c)
    ensures PartsLess(a, c)
  {
    if a != [] {
      LessIsTotal(a[0], b[0]);
      LessIsTotal(b[0], c[0]);
      if a[0] == b[0] == c[0] {
        PartsLessIsTransitive(a[1..], b[1..], c[1..]);
      } else if Less(a[0], b[0]) && Less(b[0], c[0]) {
        LessIsTransitive(a[0], b[0], c[0]);
      }
    }
  }

  /** One path's components come before another's: after some in common it is at its end and the other
      is not, or its next component comes first in the dictionary. */
  ghost predicate PartsBeforeAt(a: seq<Path>, b: seq<Path>, k: nat) {
    && k <= |a| && k < |b| && a[..k] == b[..k]
    && (k < |a| ==> Before(a[k], b[k]))
  }

  ghost predicate PartsBefore(a: seq<Path>, b: seq<Path>) {
    exists k: nat :: PartsBeforeAt(a, b, k)
  }

  lemma {:induction false} PartsLessAreBefore(a: seq<Path>, b: seq<Path>)
    requires PartsLess(a, b)
    ensures PartsBefore(a, b)
  {
    if a != [] && a[0] == b[0] {
      LessIsTotal(a[0], b[0]);
      PartsLessAreBefore(a[1..], b[1..]);
      var k: nat :| PartsBeforeAt(a[1..], b[1..], k);
      assert a[..k + 1] == [a[0]] + a[1..][..k] == [b[0]] + b[1..][..k] == b[..k + 1];
      assert PartsBeforeAt(a, b, k + 1);
    } else {
      if a != [] { LessIff(a[0], b[0]); }
      assert PartsBeforeAt(a, b, 0);
    }
  }

  lemma ByComponentsIsAnOrder()
    ensures Transitive(ByComponents) && Asymmetric(ByComponents)
  {
    forall a, b, c | ByComponents(a, b) && ByComponents(b, c) ensures ByComponents(a, c) {
      PartsLessIsTransitive(Split(a.path), Split(b.path), Split(c.path));
    }
    forall a, b | ByComponents(a, b) ensures !ByComponents(b, a) {
      PartsLessIsTotal(Split(a.path), Split(b.path));
    }
  }

  /** A directory lists each path once. */
  ghost predicate DistinctPaths(files: seq<File>) {
    forall i, j :: 0 <= i < j < |files| ==> files[i].path != files[j].path
  }

  lemma DistinctPathsAreToldApart(files: seq<File>)
    requires DistinctPaths(files)
    ensures Distinct(files, ByComponents)
  {
    forall i, j | 0 <= i < |files| && 0 <= j < |files| && i != j
      ensures ByComponents(files[i], files[j]) != ByComponents(files[j], files[i])
    {
      PartsLessIsTotal(Split(files[i].path), Split(files[j].path));
      JoinUndoesSplit(files[i].path);
      JoinUndoesSplit(files[j].path);
    }
  }

  /** The bundle's bytes do not depend on the order in which the directory was walked. */
  lemma BundleIsDeterministic(meta: Metadata, a: seq<File>, b: seq<File>, codec: Codec)
    requires DistinctPaths(a) && DistinctPaths(b) && forall f :: f in a <==> f in b
    ensures Written(meta, a, codec) == Written(meta, b, codec)
  {
    ByComponentsIsAnOrder();
    DistinctPathsAreToldApart(a);
    DistinctPathsAreToldApart(b);
    SortForgetsOrder(a, b, ByComponents);
  }

  /** The files as a tree. */
  ghost function TreeOf(files: seq<File>): Tree {
    Laid(map[], files)
  }

  lemma {:induction false} LaidHolds(tree: Tree, files: seq<File>, f: File)
    requires DistinctPaths(files)
    ensures (f.path in Laid(tree, files) && Laid(tree, files)[f.path] == f.content)
        <==> (f in files || ((forall i :: 0 <= i < |files| ==> files[i].path != f.path)
                             && f.path in tree && tree[f.path] == f.content))
    decreases |files|
  {
    if files != [] {
      var first, rest := files[0], files[1..];
      assert files == [first] + rest;
      assert forall i :: 0 <= i < |rest| ==> rest[i] == files[i + 1] && rest[i].path != first.path;
      LaidHolds(tree[first.path := first.content], rest, f);
    }
  }

  /** Sorting does not change the tree. */
  lemma SortKeepsTree(files: seq<File>)
    requires DistinctPaths(files)
    ensures TreeOf(Sorted(files, ByComponents)) == TreeOf(files)
    ensures DistinctPaths(Sorted(files, ByComponents))
    ensures forall f :: f in Sorted(files, ByComponents) <==> f in files
  {
    ByComponentsIsAnOrder();
    DistinctPathsAreToldApart(files);
    SortKeeps(files, ByComponents);
    var sorted := Sorted(files, ByComponents);
    forall i, j | 0 <= i < j < |sorted| ensures sorted[i].path != sorted[j].path {
      assert ByComponents(sorted[i], sorted[j]);
      PartsLessIsTotal(Split(sorted[i].path), Split(sorted[j].path));
    }
    SameTree(sorted, files);
  }

  lemma SameTree(a: seq<File>, b: seq<File>)
    requires DistinctPaths(a) && DistinctPaths(b) && forall f :: f in a <==> f in b
    ensures TreeOf(a) == TreeOf(b)
  {
    forall path ensures path in TreeOf(a) ==> path in TreeOf(b) && TreeOf(b)[path] == TreeOf(a)[path] {
      if path in TreeOf(a) {
        LaidHolds(map[], a, File(path, TreeOf(a)[path]));
        LaidHolds(map[], b, File(path, TreeOf(a)[path]));
      }
    }
    forall path ensures path in TreeOf(b) ==> path in TreeOf(a) && TreeOf(a)[path] == TreeOf(b)[path] {
      if path in TreeOf(b) {
        LaidHolds(map[], a, File(path, TreeOf(b)[path]));
        LaidHolds(map[], b, File(path, TreeOf(b)[path]));
      }
    }
  }

  // ------------------------------ the layout of a bundle ------------------------------

  /** Where the entry of file `i` begins, when the first begins at `start`. */
  ghost function Offset(files: seq<File>, start: nat, i: nat): nat
    requires i <= |files|
  {
    if i == 0 then start else Offset(files, start, i - 1) + |files[i - 1].path| + 12 + |files[i - 1].content|
  }

  /** From `at` on: the path's length in four bytes, highest first, and the path; then the content's
      length in eight, and the content. */
  ghost predicate LaidOut(bytes: seq<Byte>, at: nat, f: File) {
    var n := at + 4 + |f.path|;
    && n + 8 + |f.content| <= |bytes|
    && (forall k: nat :: k < 4 ==> bytes[at + 3 - k] as int == |f.path| / Pow(k) % 256)
    && bytes[at + 4..n] == f.path
    && (forall k: nat :: k < 8 ==> bytes[n + 7 - k] as int == |f.content| / Pow(k) % 256)
    && bytes[n + 8..n + 8 + |f.content|] == f.content
  }

  lemma EntryIsLaidOut(bytes: seq<Byte>, at: nat, f: File, rest: seq<Byte>)
    requires at <= |bytes| && bytes[at..] == Entry(f) + rest
    ensures LaidOut(bytes, at, f) && |Entry(f)| == 12 + |f.path| + |f.content|
  {
    EntryFields(bytes, at, f, rest);
    var n := at + 4 + |f.path|;
    forall k: nat | k < 4 ensures bytes[at + 3 - k] as int == |f.path| / Pow(k) % 256 {
      BigDigits(|f.path|, 4, k);
      assert bytes[at..at + 4][3 - k] == bytes[at + 3 - k];
    }
    forall k: nat | k < 8 ensures bytes[n + 7 - k] as int == |f.content| / Pow(k) % 256 {
      BigDigits(|f.content|, 8, k);
      assert bytes[n..n + 8][7 - k] == bytes[n + 7 - k];
    }
  }

  /** Before file `i` lie the entries before it, after it those after and the mark. */
  lemma {:induction false} EntriesFollow(
      bytes: seq<Byte>, start: nat, files: seq<File>, entry: File -> seq<Byte>, mark: seq<Byte>, i: nat)
    requires start <= |bytes| && bytes[start..] == Concatenated(files, entry, mark) && i <= |files|
    requires forall f :: |entry(f)| == 12 + |f.path| + |f.content|
    ensures Offset(files, start, i) <= |bytes|
    ensures bytes[Offset(files, start, i)..] == Concatenated(files[i..], entry, mark)
  {
    if i > 0 {
      EntriesFollow(bytes, start, files, entry, mark, i - 1);
      var at, rest := Offset(files, start, i - 1), files[i - 1..];
      assert rest[1..] == files[i..] && rest[0] == files[i - 1];
      NextSlice(bytes, at, entry(rest[0]), Concatenated(rest[1..], entry, mark));
    }
  }

  lemma EntriesFrom(bytes: seq<Byte>, start: nat, files: seq<File>, i: nat)
    requires start <= |bytes| && bytes[start..] == Entries(files) && i <= |files|
    ensures Offset(files, start, i) <= |bytes|
    ensures bytes[Offset(files, start, i)..] == Entries(files[i..])
  {
    EntriesFollow(bytes, start, files, Entry, Big(0, 4), i);
  }

  lemma FileIsLaidOut(bytes: seq<Byte>, start: nat, files: seq<File>, i: nat)
    requires start <= |bytes| && bytes[start..] == Entries(files) && i < |files|
    ensures LaidOut(bytes, Offset(files, start, i), files[i])
  {
    EntriesFrom(bytes, start, files, i);
    assert files[i..][0] == files[i];
    EntryIsLaidOut(bytes, Offset(files, start, i), files[i], Entries(files[i..][1..]));
  }

  lemma MarkIsZeros()
    ensures Big(0, 4) == ['\0', '\0', '\0', '\0']
  {
    var b := Big(0, 4);
    BigDigits(0, 4, 0);
    BigDigits(0, 4, 1);
    BigDigits(0, 4, 2);
    BigDigits(0, 4, 3);
    assert b == [b[0], b[1], b[2], b[3]];
  }

  lemma MarkEnds(bytes: seq<Byte>, start: nat, files: seq<File>)
    requires start <= |bytes| && bytes[start..] == Entries(files)
    ensures |bytes| == Offset(files, start, |files|) + 4 && bytes[|bytes| - 4..] == ['\0', '\0', '\0', '\0']
  {
    EntriesFrom(bytes, start, files, |files|);
    assert files[|files|..] == [];
    MarkIsZeros();
  }

  /** A bundle is the eleven characters of the format's name, the metadata entry, the files' entries in
      the order of their components, and four zero bytes. */
  lemma BundleIsLaidOut(meta: Metadata, walked: seq<File>, codec: Codec)
    requires Written(meta, walked, codec).Ok?
    ensures var (bytes, files) := (Written(meta, walked, codec).value, Listing(meta, walked, codec));
            && |bytes| == Offset(files, 11, |files|) + 4
            && "HALODPLUG1\n" <= bytes && bytes[|bytes| - 4..] == ['\0', '\0', '\0', '\0']
            && forall i: nat :: i < |files| ==> LaidOut(bytes, Offset(files, 11, i), files[i])
  {
    WrittenIs(meta, walked, codec);
    BytesAreLaidOut(MAGIC, Written(meta, walked, codec).value, Listing(meta, walked, codec));
  }

  lemma WrittenIs(meta: Metadata, walked: seq<File>, codec: Codec)
    requires Written(meta, walked, codec).Ok?
    ensures Written(meta, walked, codec).value == MAGIC + Entries(Listing(meta, walked, codec))
  {
    AppendedIsConcatenated(MAGIC, Listing(meta, walked, codec), Refusing(codec.utf8), Entry, Big(0, 4));
  }

  lemma BytesAreLaidOut(magic: seq<Byte>, bytes: seq<Byte>, files: seq<File>)
    requires bytes == magic + Entries(files)
    ensures |bytes| == Offset(files, |magic|, |files|) + 4
    ensures magic <= bytes && bytes[|bytes| - 4..] == ['\0', '\0', '\0', '\0']
    ensures forall i: nat :: i < |files| ==> LaidOut(bytes, Offset(files, |magic|, i), files[i])
  {
    SameStart(magic, Entries(files));
    forall i: nat | i < |files| ensures LaidOut(bytes, Offset(files, |magic|, i), files[i]) {
      FileIsLaidOut(bytes, |magic|, files, i);
    }
    MarkEnds(bytes, |magic|, files);
  }

  /** The listing: the metadata under its own name, then exactly the files of the walk, directory by
      directory in dictionary order. */
  lemma ListingIsInOrder(meta: Metadata, walked: seq<File>, codec: Codec)
    requires DistinctPaths(walked)
    ensures var files := Listing(meta, walked, codec);
            && |files| >= 1 && files[0] == File(".halod-plugin-bundle.yaml", codec.encode(meta))
            && (forall f :: f in files[1..] <==> f in walked)
            && forall i, j :: 1 <= i < j < |files| ==> PartsBefore(Split(files[i].path), Split(files[j].path))
  {
    ByComponentsIsAnOrder();
    DistinctPathsAreToldApart(walked);
    SortKeeps(walked, ByComponents);
    var files, sorted := Listing(meta, walked, codec), Sorted(walked, ByComponents);
    assert files[1..] == sorted;
    forall i, j | 1 <= i < j < |files| ensures PartsBefore(Split(files[i].path), Split(files[j].path)) {
      assert files[i] == sorted[i - 1] && files[j] == sorted[j - 1];
      assert ByComponents(sorted[i - 1], sorted[j - 1]);
      PartsLessAreBefore(Split(files[i].path), Split(files[j].path));
    }
  }

  // ------------------------------ the round trip ------------------------------

  /** What extraction returns for a written listing. */
  lemma ExtractedListing(out: seq<Byte>, files: seq<File>, codec: Codec)
    requires AllSized(files) && out == MAGIC + Entries(files)
    ensures var (tree, meta) := Replayed(Verdicts(files, Judging(codec.utf8)), map[], None, METADATA_PATH, codec);
            Extracted(out, false, codec) == (tree, Finished(meta))
  {
    ReadingReadsFiles(codec.utf8);
    SameStart(MAGIC, Entries(files));
    StepsAreVerdicts(out, |MAGIC|, files, Reading(codec.utf8), Judging(codec.utf8), Entry, Big(0, 4));
  }

  lemma SameStart(a: seq<Byte>, b: seq<Byte>)
    ensures (a + b)[..|a|] == a && (a + b)[|a|..] == b
  {
  }

  lemma {:induction false} SizedOne(files: seq<File>)
    ensures AllSized(files) <==> forall i :: 0 <= i < |files| ==> Sized(files[i])
  {
    if files != [] {
      SizedOne(files[1..]);
      assert files == [files[0]] + files[1..];
    }
  }

  lemma ReplayFirst(
      first: File, rest: seq<File>, step: Step, tree: Tree, meta: Option<Metadata>, key: Path, codec: Codec,
      verdict: File -> Step)
    requires verdict(first) == step
    ensures var p := Absorbed(step, tree, meta, key, codec);
            Replayed(Verdicts([first] + rest, verdict), tree, meta, key, codec)
              == if p.Ended? then (tree, p.result)
                 else Replayed(Verdicts(rest, verdict), p.tree, p.meta, key, codec)
  {
    assert ([first] + rest)[1..] == rest;
    var steps := Verdicts([first] + rest, verdict);
    assert steps[0] == step && (step.Item? ==> steps[1..] == Verdicts(rest, verdict));
  }

  lemma MetadataVerdict(content: seq<Byte>, utf8: Utf8)
    requires utf8(METADATA_PATH)
    ensures Verdict(File(METADATA_PATH, content), utf8)
              == if |content| > MAX_ENTRY then Broken(EntryTooLarge)
                 else Item(METADATA_PATH, content, 12 + |METADATA_PATH| + |content|)
  {
    MetadataPathIsNormal(utf8);
  }

  /** The metadata entry, which is written first, is taken exactly when it is not too large. */
  lemma MetadataIsTaken(meta: Metadata, rest: seq<File>, codec: Codec)
    requires codec.utf8(METADATA_PATH) && codec.decode(codec.encode(meta)) == Some(meta)
    ensures var verdict := Judging(codec.utf8);
            Replayed(Verdicts([File(METADATA_PATH, codec.encode(meta))] + rest, verdict),
                     map[], None, METADATA_PATH, codec)
              == if |codec.encode(meta)| > MAX_ENTRY then (map[], Err(EntryTooLarge))
                 else Replayed(Verdicts(rest, verdict), map[], Some(meta), METADATA_PATH, codec)
  {
    var first := File(METADATA_PATH, codec.encode(meta));
    MetadataVerdict(first.content, codec.utf8);
    ReplayFirst(first, rest, Verdict(first, codec.utf8), map[], None, METADATA_PATH, codec, Judging(codec.utf8));
  }

  /** When the listing is laid down well, with every file there, they all fit, and conversely. */
  lemma ListingLandsIff(files: seq<File>, meta: Metadata, codec: Codec)
    requires DistinctPaths(files)
    ensures Replayed(Verdicts(files, Judging(codec.utf8)), map[], Some(meta), METADATA_PATH, codec)
              == (TreeOf(files), Ok(Some(meta)))
        <==> forall i :: 0 <= i < |files| ==> Fits(files[i], codec.utf8)
  {
    var key, verdict, allowed, fits := METADATA_PATH, Judging(codec.utf8), Allowed(codec.utf8), Fitting(codec.utf8);
    JudgingTakesFitting(codec.utf8);
    var landed := Replayed(Verdicts(files, verdict), map[], Some(meta), key, codec);
    if forall i :: 0 <= i < |files| ==> Fits(files[i], codec.utf8) {
      assert forall i :: 0 <= i < |files| ==> fits(files[i]);
      FittingLand(files, map[], Some(meta), key, codec, verdict, allowed, fits);
    }
    if landed == (TreeOf(files), Ok(Some(meta))) {
      forall i | 0 <= i < |files| ensures files[i].path in landed.0 {
        LaidHolds(map[], files, files[i]);
      }
      LandedFit(files, map[], Some(meta), key, codec, verdict, allowed, fits);
      forall i | 0 <= i < |files| ensures Fits(files[i], codec.utf8) {
        assert fits(files[i]);
      }
    }
  }

  /** A bundle gives its files and metadata back exactly when every file fits: a normal path of at
      most 4096 bytes that is not the metadata entry's, and no entry over 64 MiB. */
  lemma RoundTripIff(meta: Metadata, walked: seq<File>, codec: Codec)
    requires DistinctPaths(walked) && forall i :: 0 <= i < |walked| ==> |walked[i].content| < Pow(8)
    requires codec.utf8(METADATA_PATH) && meta.release != ""
    requires codec.decode(codec.encode(meta)) == Some(meta) && |codec.encode(meta)| < Pow(8)
    ensures var bundle := Written(meta, walked, codec);
            bundle.Ok? && Extracted(bundle.value, false, codec) == (TreeOf(walked), Ok(meta))
            <==> |codec.encode(meta)| <= 67_108_864 && forall i :: 0 <= i < |walked| ==> Fits(walked[i], codec.utf8)
  {
    var sorted := Sorted(walked, ByComponents);
    SortKeepsTree(walked);
    SameFits(walked, sorted, codec.utf8);
    if Written(meta, walked, codec).Ok? {
      WrittenListing(meta, walked, codec);
      ExtractedBundle(Written(meta, walked, codec).value, meta, sorted, codec);
    } else {
      RefusedListing(meta, walked, codec);
    }
  }

  /** A bundle of files that fit is never taken when any of its end is missing. */
  lemma TruncationIsNoticed(meta: Metadata, walked: seq<File>, codec: Codec, k: nat)
    requires DistinctPaths(walked) && forall i :: 0 <= i < |walked| ==> Fits(walked[i], codec.utf8)
    requires codec.utf8(METADATA_PATH) && codec.decode(codec.encode(meta)) == Some(meta)
    requires |codec.encode(meta)| <= 67_108_864
    requires Written(meta, walked, codec).Ok? && k < |Written(meta, walked, codec).value|
    ensures Extracted(Written(meta, walked, codec).value[..k], false, codec).1 == Err(Truncated)
  {
    var (bytes, files) := (Written(meta, walked, codec).value, Listing(meta, walked, codec));
    WideEnough();
    WrittenListing(meta, walked, codec);
    ListingIsTaken(meta, walked, codec);
    if |MAGIC| <= k {
      CutListing(bytes, MAGIC, files, k, METADATA_PATH, codec);
      CutBegins(bytes, MAGIC, Entries(files), k);
    }
  }

  lemma CutBegins(bytes: seq<Byte>, magic: seq<Byte>, rest: seq<Byte>, k: nat)
    requires bytes == magic + rest && |magic| <= k <= |bytes|
    ensures bytes[..k][..|magic|] == magic
  {
  }

  lemma ListingIsTaken(meta: Metadata, walked: seq<File>, codec: Codec)
    requires DistinctPaths(walked) && forall i :: 0 <= i < |walked| ==> Fits(walked[i], codec.utf8)
    requires codec.utf8(METADATA_PATH) && codec.decode(codec.encode(meta)) == Some(meta)
    requires |codec.encode(meta)| <= 67_108_864
    ensures AllTaken(Listing(meta, walked, codec), Judging(codec.utf8), METADATA_PATH, codec)
  {
    var files, verdict := Listing(meta, walked, codec), Judging(codec.utf8);
    SortKeepsTree(walked);
    JudgingTakesFitting(codec.utf8);
    MetadataVerdict(codec.encode(meta), codec.utf8);
    forall i | 0 <= i < |files| ensures Taken(files[i], verdict, METADATA_PATH, codec) {
      if i > 0 {
        assert files[i] == Sorted(walked, ByComponents)[i - 1];
        assert files[i] in walked;
        assert Fitting(codec.utf8)(files[i]);
      }
    }
    TakenEach(files, verdict, METADATA_PATH, codec);
  }

  lemma ExtractedBundle(out: seq<Byte>, meta: Metadata, files: seq<File>, codec: Codec)
    requires DistinctPaths(files) && codec.utf8(METADATA_PATH) && meta.release != ""
    requires codec.decode(codec.encode(meta)) == Some(meta)
    requires var listing := [File(METADATA_PATH, codec.encode(meta))] + files;
             AllSized(listing) && out == MAGIC + Entries(listing)
    ensures Extracted(out, false, codec) == (TreeOf(files), Ok(meta))
        <==> |codec.encode(meta)| <= MAX_ENTRY && forall i :: 0 <= i < |files| ==> Fits(files[i], codec.utf8)
  {
    ExtractedListing(out, [File(METADATA_PATH, codec.encode(meta))] + files, codec);
    MetadataIsTaken(meta, files, codec);
    ListingLandsIff(files, meta, codec);
    var landed := Replayed(Verdicts(files, Judging(codec.utf8)), map[], Some(meta), METADATA_PATH, codec);
    FinishedWith(landed.1, meta);
  }

  lemma FinishedWith(r: Result<Option<Metadata>, Fault>, meta: Metadata)
    requires meta.release != ""
    ensures Finished(r) == Ok(meta) <==> r == Ok(Some(meta))
  {
  }

  lemma WrittenListing(meta: Metadata, walked: seq<File>, codec: Codec)
    requires DistinctPaths(walked) && Written(meta, walked, codec).Ok? && |codec.encode(meta)| < Pow(8)
    requires forall i :: 0 <= i < |walked| ==> |walked[i].content| < Pow(8)
    ensures AllSized(Listing(meta, walked, codec))
    ensures Written(meta, walked, codec).value == MAGIC + Entries(Listing(meta, walked, codec))
  {
    var listing := Listing(meta, walked, codec);
    SortKeepsTree(walked);
    AppendedIsConcatenated(MAGIC, listing, Refusing(codec.utf8), Entry, Big(0, 4));
    forall i | 0 <= i < |listing| ensures Sized(listing[i]) {
      assert Refused(listing[i], codec.utf8).None?;
      if i > 0 {
        assert listing[i] == Sorted(walked, ByComponents)[i - 1];
        assert listing[i] in walked;
      }
    }
    SizedOne(listing);
  }

  lemma RefusedListing(meta: Metadata, walked: seq<File>, codec: Codec)
    requires Written(meta, walked, codec).Err? && codec.utf8(METADATA_PATH)
    ensures exists i :: 0 <= i < |Sorted(walked, ByComponents)| && !Fits(Sorted(walked, ByComponents)[i], codec.utf8)
  {
    var listing := Listing(meta, walked, codec);
    var sorted := Sorted(walked, ByComponents);
    WideEnough();
    AppendedIsConcatenated(MAGIC, listing, Refusing(codec.utf8), Entry, Big(0, 4));
    var i :| 0 <= i < |listing| && Refused(listing[i], codec.utf8).Some?;
    assert i > 0;
    assert listing[i] == sorted[i - 1];
    assert !Fits(sorted[i - 1], codec.utf8);
  }

  lemma SameFits(a: seq<File>, b: seq<File>, utf8: Utf8)
    requires forall f :: f in a <==> f in b
    ensures (forall i :: 0 <= i < |a| ==> Fits(a[i], utf8)) <==> (forall i :: 0 <= i < |b| ==> Fits(b[i], utf8))
  {
    forall i | 0 <= i < |a| ensures a[i] in b {}
    forall i | 0 <= i < |b| ensures b[i] in a {}
  }
}

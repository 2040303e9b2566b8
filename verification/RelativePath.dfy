/** Repository-relative paths: the one form in which a path is hashed and extracted. */
module RelativePath {
  import opened Bytes
  import opened Wrappers

  type Path = seq<Byte>

  /** The check that bytes are well-formed UTF-8. */
  type Utf8 = seq<Byte> -> bool

  /** A regular file found by a directory walk. */
  datatype File = File(path: Path, content: seq<Byte>)

  datatype PathFault = NotRelative | NotNormal | NotUtf8

  /** The pieces between slashes; always at least one. */
  function Split(path: Path): (parts: seq<Path>)
    ensures parts != []
  {
    if path == [] then [[]]
    else
      var rest := Split(path[1..]);
      if path[0] == '/' then [[]] + rest else [[path[0]] + rest[0]] + rest[1..]
  }

  function Join(parts: seq<Path>): Path {
    if parts == [] then []
    else if |parts| == 1 then parts[0]
    else parts[0] + ['/'] + Join(parts[1..])
  }

  /** The named components of the pieces, or the fault of the first that is none. Empty pieces
      and single dots past the first are not components at all. */
  function Collected(parts: seq<Path>, utf8: Utf8): Result<seq<Path>, PathFault> {
    if parts == [] then Ok([])
    else
      var n := |parts| - 1;
      var front := Collected(parts[..n], utf8);
      var part := parts[n];
      if front.Err? || part == [] || (part == "." && n > 0) then front
      else if part == "." || part == ".." then Err(NotNormal)
      else if !utf8(part) then Err(NotUtf8)
      else Ok(front.value + [part])
  }

  function Normalized(path: Path, utf8: Utf8): Result<Path, PathFault> {
    if path == [] || path[0] == '/' then Err(NotRelative)
    else
      var parts := Collected(Split(path), utf8);
      if parts.Err? then Err(parts.error) else Ok(Join(parts.value))
  }

  method NormalizedRelativePath(path: Path, utf8: Utf8) returns (r: Result<Path, PathFault>)
    ensures r == Normalized(path, utf8)
  {
    if path == [] || path[0] == '/' {
      return Err(NotRelative);
    }
    var pieces := Split(path);
    var parts: seq<Path> := [];
    for i := 0 to |pieces|
      invariant Collected(pieces[..i], utf8) == Ok(parts)
    {
      assert pieces[..i + 1][..i] == pieces[..i];
      var part := pieces[i];
      if part == [] || (part == "." && i > 0) {
        continue;
      }
      if part == "." || part == ".." || !utf8(part) {
        CollectedStops(pieces, i + 1, utf8);
        return Err(if part == "." || part == ".." then NotNormal else NotUtf8);
      }
      parts := parts + [part];
    }
    assert pieces[..|pieces|] == pieces;
    return Ok(Join(parts));
  }

  lemma {:induction false} CollectedStops(parts: seq<Path>, n: nat, utf8: Utf8)
    requires n <= |parts| && Collected(parts[..n], utf8).Err?
    ensures Collected(parts, utf8) == Collected(parts[..n], utf8)
  {
    if n < |parts| {
      var front := parts[..|parts| - 1];
      assert front[..n] == parts[..n];
      CollectedStops(front, n, utf8);
    } else {
      assert parts[..n] == parts;
    }
  }

  /** A piece that names something directly below its parent. */
  predicate Plain(part: Path, utf8: Utf8) {
    part != [] && part != "." && part != ".." && '/' !in part && utf8(part)
  }

  /** A path that stays below its root and is written in the one normal way. */
  predicate IsNormal(path: Path, utf8: Utf8) {
    forall i :: 0 <= i < |Split(path)| ==> Plain(Split(path)[i], utf8)
  }

  lemma {:induction false} SplitHasNoSlash(path: Path)
    ensures forall i :: 0 <= i < |Split(path)| ==> '/' !in Split(path)[i]
    ensures path != [] && path[0] != '/' ==> Split(path)[0] != []
  {
    if path != [] { SplitHasNoSlash(path[1..]); }
  }

  lemma {:induction false} JoinUndoesSplit(path: Path)
    ensures Join(Split(path)) == path
  {
    if path != [] {
      var rest := Split(path[1..]);
      JoinUndoesSplit(path[1..]);
      if path[0] == '/' {
        assert Split(path) == [[]] + rest;
        assert Split(path)[1..] == rest;
      } else {
        assert Split(path)[1..] == rest[1..];
      }
    }
  }

  lemma {:induction false} SplitOfPiece(part: Path, rest: Path)
    requires '/' !in part
    ensures Split(part) == [part]
    ensures Split(part + ['/'] + rest) == [part] + Split(rest)
  {
    var path := part + ['/'] + rest;
    if part == [] {
      assert path[1..] == rest;
    } else {
      SplitOfPiece(part[1..], rest);
      assert path[1..] == part[1..] + ['/'] + rest;
      assert part == [part[0]] + part[1..];
    }
  }

  lemma {:induction false} SplitUndoesJoin(parts: seq<Path>)
    requires parts != [] && forall i :: 0 <= i < |parts| ==> '/' !in parts[i]
    ensures Split(Join(parts)) == parts
  {
    if |parts| == 1 {
      SplitOfPiece(parts[0], []);
    } else {
      SplitOfPiece(parts[0], Join(parts[1..]));
      SplitUndoesJoin(parts[1..]);
    }
  }

  lemma {:induction false} CollectedArePlain(parts: seq<Path>, utf8: Utf8)
    requires forall i :: 0 <= i < |parts| ==> '/' !in parts[i]
    requires Collected(parts, utf8).Ok?
    ensures forall i :: 0 <= i < |Collected(parts, utf8).value| ==> Plain(Collected(parts, utf8).value[i], utf8)
    ensures parts != [] && parts[0] != [] ==> Collected(parts, utf8).value != []
  {
    if parts != [] { CollectedArePlain(parts[..|parts| - 1], utf8); }
  }

  lemma {:induction false} PlainAreCollected(parts: seq<Path>, utf8: Utf8)
    requires forall i :: 0 <= i < |parts| ==> Plain(parts[i], utf8)
    ensures Collected(parts, utf8) == Ok(parts)
  {
    if parts != [] {
      var n := |parts| - 1;
      PlainAreCollected(parts[..n], utf8);
      assert Plain(parts[n], utf8);
      assert parts == parts[..n] + [parts[n]];
    }
  }

  /** A path that is accepted comes out normal: below its root, with no empty, dot or dot-dot
      piece. Exactly the normal paths come out as they went in. */
  lemma NormalizedIsNormal(path: Path, utf8: Utf8)
    ensures Normalized(path, utf8).Ok? ==> IsNormal(Normalized(path, utf8).value, utf8)
    ensures Normalized(path, utf8) == Ok(path) <==> IsNormal(path, utf8)
  {
    SplitHasNoSlash(path);
    JoinUndoesSplit(path);
    if Normalized(path, utf8).Ok? {
      CollectedArePlain(Split(path), utf8);
      SplitUndoesJoin(Collected(Split(path), utf8).value);
    }
    if IsNormal(path, utf8) {
      assert Plain(Split(path)[0], utf8);
      PlainAreCollected(Split(path), utf8);
    }
  }

  /** Normalising twice is normalising once. */
  lemma NormalizingSettles(path: Path, utf8: Utf8)
    requires Normalized(path, utf8).Ok?
    ensures Normalized(Normalized(path, utf8).value, utf8) == Normalized(path, utf8)
  {
    NormalizedIsNormal(path, utf8);
    NormalizedIsNormal(Normalized(path, utf8).value, utf8);
  }

  /** A single plain name is a normal path. */
  lemma NameIsNormal(name: Path, utf8: Utf8)
    requires Plain(name, utf8)
    ensures IsNormal(name, utf8) && Normalized(name, utf8) == Ok(name)
  {
    SplitOfPiece(name, []);
    NormalizedIsNormal(name, utf8);
  }

  // ------------------------------ exactly which paths, and what becomes of them ------------------------------

  /** The pieces that name something: not empty, and no single dot. */
  function Named(parts: seq<Path>): seq<Path> {
    if parts == [] then []
    else (if parts[0] == [] || parts[0] == ['.'] then [] else [parts[0]]) + Named(parts[1..])
  }

  /** A piece that may stand in a path. */
  predicate Passes(part: Path, utf8: Utf8) {
    part == [] || part == ['.'] || (part != ['.', '.'] && utf8(part))
  }

  lemma {:induction false} NamedOneMore(parts: seq<Path>, part: Path)
    ensures Named(parts + [part]) == Named(parts) + if part == [] || part == ['.'] then [] else [part]
  {
    if parts != [] {
      assert (parts + [part])[1..] == parts[1..] + [part];
      NamedOneMore(parts[1..], part);
    } else {
      assert [part][1..] == [];
    }
  }

  lemma {:induction false} CollectedAreNamed(parts: seq<Path>, utf8: Utf8)
    requires parts != [] ==> parts[0] != []
    ensures Collected(parts, utf8).Ok? <==>
              (parts != [] ==> parts[0] != ['.']) && forall i :: 0 <= i < |parts| ==> Passes(parts[i], utf8)
    ensures Collected(parts, utf8).Ok? ==> Collected(parts, utf8).value == Named(parts)
  {
    if parts != [] {
      var n := |parts| - 1;
      CollectedAreNamed(parts[..n], utf8);
      NamedOneMore(parts[..n], parts[n]);
      assert parts == parts[..n] + [parts[n]];
      assert parts[n] == "." <==> parts[n] == ['.'];
      assert parts[n] == ".." <==> parts[n] == ['.', '.'];
    }
  }

  /** A path is accepted exactly when it is relative, does not begin with a dot piece, and has no dot-dot
      piece and none that is not UTF-8; then empty and dot pieces are dropped, and the others kept in order. */
  lemma NormalizesExactly(path: Path, utf8: Utf8)
    ensures Normalized(path, utf8).Ok? <==>
              && path != [] && path[0] != '/' && Split(path)[0] != ['.']
              && forall i :: 0 <= i < |Split(path)| ==> Passes(Split(path)[i], utf8)
    ensures Normalized(path, utf8).Ok? ==> Split(Normalized(path, utf8).value) == Named(Split(path))
    ensures Normalized(path, utf8) == Err(NotRelative) <==> path == [] || path[0] == '/'
  {
    if path != [] && path[0] != '/' {
      SplitHasNoSlash(path);
      CollectedAreNamed(Split(path), utf8);
      CollectedIsRelative(Split(path), utf8);
      if Normalized(path, utf8).Ok? {
        CollectedArePlain(Split(path), utf8);
        SplitUndoesJoin(Collected(Split(path), utf8).value);
      }
    }
  }

  lemma {:induction false} CollectedIsRelative(parts: seq<Path>, utf8: Utf8)
    ensures Collected(parts, utf8) != Err(NotRelative)
  {
    if parts != [] { CollectedIsRelative(parts[..|parts| - 1], utf8); }
  }

  /** A relative path that is not accepted is turned down for its first piece that may not stand there. */
  lemma FaultIsOfTheFirst(path: Path, utf8: Utf8, i: nat)
    requires path != [] && path[0] != '/' && i < |Split(path)|
    requires var part := Split(path)[i]; !Passes(part, utf8) || (i == 0 && part == ['.'])
    requires forall k :: 0 <= k < i ==> Passes(Split(path)[k], utf8) && (k == 0 ==> Split(path)[k] != ['.'])
    ensures var part := Split(path)[i];
            Normalized(path, utf8) == Err(if part == ['.'] || part == ['.', '.'] then NotNormal else NotUtf8)
  {
    var parts := Split(path);
    SplitHasNoSlash(path);
    CollectedAreNamed(parts[..i], utf8);
    assert parts[..i + 1][..i] == parts[..i];
    assert parts[i] == "." <==> parts[i] == ['.'];
    assert parts[i] == ".." <==> parts[i] == ['.', '.'];
    CollectedStops(parts, i + 1, utf8);
  }
}

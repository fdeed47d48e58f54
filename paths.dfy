/** The two path helpers of `src/utils.ts`: `basePath` (strip everything up
    to the last separator) and `getPathFromABase` (re-root a path at the first
    segment of a base). */
module Paths {
  import opened Text

  predicate IsSeparator(ch: char)
  {
    ch == '/' || ch == '\\'
  }

  /** The characters JavaScript's `.` does not match. */
  predicate IsLineTerminator(ch: char)
  {
    ch == '\n' || ch == '\r' || ch == '\U{2028}' || ch == '\U{2029}'
  }

  predicate HasSeparator(s: string)
  {
    exists i :: 0 <= i < |s| && IsSeparator(s[i])
  }

  predicate HasLineTerminator(s: string)
  {
    exists i :: 0 <= i < |s| && IsLineTerminator(s[i])
  }

  /** The length of the first line: the index of the first line terminator, or |s|. */
  function FirstLineLength(s: string): (k: nat)
    ensures k <= |s|
    ensures forall i :: 0 <= i < k ==> !IsLineTerminator(s[i])
    ensures k < |s| ==> IsLineTerminator(s[k])
  {
    if s == [] || IsLineTerminator(s[0]) then 0 else 1 + FirstLineLength(s[1..])
  }

  /** The index of the last separator in `s`. */
  function LastSeparator(s: string): (r: Option<nat>)
    ensures r.Some? ==> r.value < |s| && IsSeparator(s[r.value])
    ensures r.Some? ==> forall k :: r.value < k < |s| ==> !IsSeparator(s[k])
    ensures r.None? ==> forall k :: 0 <= k < |s| ==> !IsSeparator(s[k])
  {
    if s == [] then None
    else if IsSeparator(s[|s| - 1]) then Some(|s| - 1)
    else LastSeparator(s[..|s| - 1])
  }

  /** `file.replace(/^.*[\\\/]/, '')`: the regular expression is anchored at the
      start and `.*` is greedy but cannot cross a line terminator, so the match
      ends at the last separator of the first line, if there is one. */
  function BasePath(file: string): (r: string)
    ensures IsSuffix(r, file)
  {
    var head := FirstLineLength(file);
    match LastSeparator(file[..head])
    case None => file
    case Some(j) => file[j + 1..]
  }

  /** A separator-free string is returned unchanged. */
  lemma BasePathPlain(file: string)
    requires !HasSeparator(file)
    ensures BasePath(file) == file
  {
    var head := FirstLineLength(file);
    assert forall k :: 0 <= k < head ==> !IsSeparator(file[..head][k]);
  }

  /** On a one-line path the result contains no separator at all. */
  lemma BasePathNoSeparator(file: string)
    requires !HasLineTerminator(file)
    ensures !HasSeparator(BasePath(file))
  {
    var head := FirstLineLength(file);
    assert head == |file|;
    assert file[..head] == file;
    var r := BasePath(file);
    match LastSeparator(file)
    case None =>
      assert r == file;
    case Some(j) =>
      assert r == file[j + 1..];
      assert forall i :: 0 <= i < |r| ==> r[i] == file[j + 1 + i];
  }

  /** A separator on a later line is left alone: the directory part survives. */
  lemma BasePathKeepsLaterLines(first: string, rest: string)
    requires !HasSeparator(first) && !HasLineTerminator(first)
    ensures BasePath(first + "\n" + rest) == first + "\n" + rest
  {
    var file := first + "\n" + rest;
    assert forall i :: 0 <= i < |first| ==> file[i] == first[i];
    assert file[|first|] == '\n';
    var head := FirstLineLength(file);
    assert head == |first|;
    assert file[..head] == first;
    assert forall k :: 0 <= k < |first| ==> !IsSeparator(first[k]);
  }

  lemma {:induction false} FirstLineDrop(s: string, m: nat)
    requires m <= FirstLineLength(s)
    ensures FirstLineLength(s[m..]) == FirstLineLength(s) - m
  {
    if m > 0 {
      FirstLineDrop(s[1..], m - 1);
      assert s[1..][m - 1..] == s[m..];
    }
  }

  lemma NoSeparatorNone(s: string)
    requires forall k :: 0 <= k < |s| ==> !IsSeparator(s[k])
    ensures LastSeparator(s).None?
  {
  }

  lemma BasePathIdempotent(file: string)
    ensures BasePath(BasePath(file)) == BasePath(file)
  {
    var head := FirstLineLength(file);
    var line := file[..head];
    match LastSeparator(line)
    case None =>
    case Some(j) =>
      var r := file[j + 1..];
      FirstLineDrop(file, j + 1);
      AfterLastSeparator(line, j);
      assert r[..head - (j + 1)] == line[j + 1..];
  }

  /** Past the last separator there is none. */
  lemma AfterLastSeparator(line: string, j: nat)
    requires LastSeparator(line) == Some(j)
    ensures LastSeparator(line[j + 1..]).None?
  {
    var t := line[j + 1..];
    forall k | 0 <= k < |t|
      ensures !IsSeparator(t[k])
    {
      assert t[k] == line[j + 1 + k];
    }
    NoSeparatorNone(t);
  }


  /** The message `getPathFromABase` throws. */
  function NoMatchMessage(base: string, file: string): string
  {
    "Could not match " + base + " to " + file
  }

  /** `getPathFromABase`: take the first `/`-segment of `base`, find its first
      occurrence among the segments of `file`, drop the segments before it
      (`splice(0, index)`) and join the rest with `/`. */
  method GetPathFromABase(base: string, file: string) returns (r: Result<string>)
    ensures r.Err? <==> Split(base, '/')[0] !in Split(file, '/')
    ensures r.Err? ==> r.message == NoMatchMessage(base, file)
    ensures r.Ok? ==> exists k :: 0 <= k < |Split(file, '/')|
                        && Split(file, '/')[k] == Split(base, '/')[0]
                        && (forall j :: 0 <= j < k ==> Split(file, '/')[j] != Split(base, '/')[0])
                        && r.value == Join(Split(file, '/')[k..], '/')
    ensures r.Ok? ==> StartsWith(r.value, Split(base, '/')[0])
    ensures r.Ok? ==> IsSuffix(r.value, file)
  {
    var baseRoot := Split(base, '/')[0];
    var fileArray := Split(file, '/');
    ghost var segments := fileArray;
    var newRootIndex := -1;
    var i := 0;
    while i < |fileArray|
      invariant 0 <= i <= |fileArray|
      invariant forall j :: 0 <= j < i ==> fileArray[j] != baseRoot
    {
      if fileArray[i] == baseRoot {
        newRootIndex := i;
        break;
      }
      i := i + 1;
    }
    if newRootIndex == -1 {
      return Err(NoMatchMessage(base, file));
    }
    fileArray := fileArray[newRootIndex..];
    r := Ok(Join(fileArray, '/'));
    JoinStartsWithFirst(fileArray, '/');
    JoinTailIsSuffix(segments, newRootIndex, '/');
    JoinSplit(file, '/');
  }

  lemma JoinStartsWithFirst(parts: seq<string>, c: char)
    requires |parts| >= 1
    ensures StartsWith(Join(parts, c), parts[0])
  {
    if |parts| > 1 {
      assert Join(parts, c) == parts[0] + ([c] + Join(parts[1..], c));
    }
  }
}

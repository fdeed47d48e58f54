/** Strings and the few JavaScript string operations the tool relies on:
    `indexOf`, `replace` with a string pattern, `split`/`join` on one
    character, ASCII case mapping, and the `camelcase` library seen as a
    parameter. */
module Text {

  datatype Option<T> = None | Some(value: T)

  /** A computation that may throw: `Err` carries the message. */
  datatype Result<T> = Ok(value: T) | Err(message: string)

  /** The `camelcase` library: `camelCase(input, { pascalCase })`.  Its code is
      not part of this model, so every member that needs it takes it as a
      parameter and assumes nothing about it unless a `requires` says so. */
  type CamelCase = (string, bool) -> string

  predicate OccursAt(s: string, p: string, i: nat)
  {
    i + |p| <= |s| && s[i..i + |p|] == p
  }

  predicate Contains(s: string, p: string)
  {
    exists i: nat :: i <= |s| && OccursAt(s, p, i)
  }

  /** `p` occurs at `i` and nowhere before `i`. */
  predicate FirstAt(s: string, p: string, i: nat)
  {
    OccursAt(s, p, i) && forall k: nat :: k < i ==> !OccursAt(s, p, k)
  }

  predicate StartsWith(s: string, p: string)
  {
    OccursAt(s, p, 0)
  }

  predicate EndsWith(s: string, p: string)
  {
    |p| <= |s| && s[|s| - |p|..] == p
  }

  predicate IsSuffix(t: string, s: string)
  {
    EndsWith(s, t)
  }

  /** The first occurrence of `p` at or after `from` (`s.indexOf(p, from)`). */
  function FindFrom(s: string, p: string, from: nat): (r: Option<nat>)
    ensures r.Some? ==> from <= r.value && OccursAt(s, p, r.value)
    ensures r.Some? ==> forall k: nat :: from <= k < r.value ==> !OccursAt(s, p, k)
    ensures r.None? ==> forall k: nat :: from <= k ==> !OccursAt(s, p, k)
    decreases |s| - from
  {
    if from + |p| > |s| then None
    else if s[from..from + |p|] == p then Some(from)
    else FindFrom(s, p, from + 1)
  }

  /** The first index at or after `from` holding `ch`. */
  function FindChar(s: string, ch: char, from: nat): (r: Option<nat>)
    ensures r.Some? ==> from <= r.value < |s| && s[r.value] == ch
    ensures r.Some? ==> forall k :: from <= k < r.value ==> s[k] != ch
    ensures r.None? ==> forall k :: from <= k < |s| ==> s[k] != ch
    decreases |s| - from
  {
    if from >= |s| then None
    else if s[from] == ch then Some(from)
    else FindChar(s, ch, from + 1)
  }

  /** `s.indexOf(p)`, with `None` for -1. */
  function IndexOf(s: string, p: string): (r: Option<nat>)
    ensures r.Some? ==> FirstAt(s, p, r.value)
    ensures r.None? <==> !Contains(s, p)
  {
    FindFrom(s, p, 0)
  }

  /** The first occurrence is the one `indexOf` finds. */
  lemma IndexOfFirst(s: string, p: string, i: nat)
    requires FirstAt(s, p, i)
    ensures IndexOf(s, p) == Some(i)
  {
    assert Contains(s, p);
  }

  /** A text that shares everything up to the end of the first `p` keeps it first. */
  lemma FirstAtSharedPrefix(s: string, r: string, p: string, i: nat)
    requires FirstAt(s, p, i)
    requires i + |p| <= |r| && r[..i + |p|] == s[..i + |p|]
    ensures FirstAt(r, p, i)
  {
    forall k: nat | k < i
      ensures !OccursAt(r, p, k)
    {
      assert !OccursAt(s, p, k);
      assert r[k..k + |p|] == r[..i + |p|][k..k + |p|];
      assert s[k..k + |p|] == s[..i + |p|][k..k + |p|];
    }
    assert r[i..i + |p|] == r[..i + |p|][i..];
    assert s[i..i + |p|] == s[..i + |p|][i..];
  }

  /** `s.replace(p, r)` with a string pattern: only the first occurrence. */
  function ReplaceFirst(s: string, p: string, rep: string): string
  {
    match IndexOf(s, p)
    case None => s
    case Some(i) => s[..i] + rep + s[i + |p|..]
  }

  lemma ReplaceFirstAt(s: string, p: string, rep: string, i: nat)
    requires FirstAt(s, p, i)
    ensures ReplaceFirst(s, p, rep) == s[..i] + rep + s[i + |p|..]
  {
    assert IndexOf(s, p).Some?;
  }

  /** `s.split(c)` for a one-character separator: never empty. */
  function Split(s: string, c: char): (parts: seq<string>)
    ensures |parts| >= 1
    ensures forall i :: 0 <= i < |parts| ==> c !in parts[i]
  {
    if s == [] then [[]]
    else
      var rest := Split(s[1..], c);
      if s[0] == c then [[]] + rest else [[s[0]] + rest[0]] + rest[1..]
  }

  /** `parts.join(c)`. */
  function Join(parts: seq<string>, c: char): string
  {
    if |parts| == 0 then []
    else if |parts| == 1 then parts[0]
    else parts[0] + [c] + Join(parts[1..], c)
  }

  lemma {:induction false} JoinSplit(s: string, c: char)
    ensures Join(Split(s, c), c) == s
  {
    if s != [] {
      JoinSplit(s[1..], c);
      var rest := Split(s[1..], c);
      if s[0] != c {
        if |rest| > 1 {
          assert Join(rest, c) == rest[0] + [c] + Join(rest[1..], c);
          assert [[s[0]] + rest[0]] + rest[1..] == [[s[0]] + rest[0]] + rest[1..];
          assert ([[s[0]] + rest[0]] + rest[1..])[1..] == rest[1..];
        }
      } else {
        assert ([[]] + rest)[1..] == rest;
      }
    }
  }

  lemma {:induction false} SplitPlain(x: string, y: string, c: char)
    requires c !in x
    ensures Split(x + y, c) == [x + Split(y, c)[0]] + Split(y, c)[1..]
  {
    if x != [] {
      assert (x + y)[1..] == x[1..] + y;
      SplitPlain(x[1..], y, c);
      assert [x[0]] + (x[1..] + Split(y, c)[0]) == x + Split(y, c)[0];
    } else {
      var parts := Split(y, c);
      assert x + y == y;
      assert x + parts[0] == parts[0];
      assert [parts[0]] + parts[1..] == parts;
    }
  }

  /** Splitting undoes joining when no part contains the separator. */
  lemma {:induction false} SplitJoin(parts: seq<string>, c: char)
    requires |parts| >= 1
    requires forall i :: 0 <= i < |parts| ==> c !in parts[i]
    ensures Split(Join(parts, c), c) == parts
  {
    if |parts| == 1 {
      SplitPlain(parts[0], [], c);
      assert parts[0] + [] == parts[0];
    } else {
      var tail := Join(parts[1..], c);
      SplitJoin(parts[1..], c);
      assert Join(parts, c) == parts[0] + ([c] + tail);
      SplitPlain(parts[0], [c] + tail, c);
      assert ([c] + tail)[1..] == tail;
      assert Split([c] + tail, c) == [[]] + parts[1..];
      assert parts[0] + [] == parts[0];
    }
  }

  /** Joining the tail of a list of parts gives a suffix of the whole join. */
  lemma {:induction false} JoinTailIsSuffix(parts: seq<string>, k: nat, c: char)
    requires k < |parts|
    ensures IsSuffix(Join(parts[k..], c), Join(parts, c))
  {
    if k > 0 {
      JoinTailIsSuffix(parts[1..], k - 1, c);
      assert parts[1..][k - 1..] == parts[k..];
      var whole := Join(parts, c);
      assert whole == (parts[0] + [c]) + Join(parts[1..], c);
    }
  }

  /** Lines each followed by `c` (the shape of text built with `out += line + '\n'`). */
  function Terminated(lines: seq<string>, c: char): string
  {
    if lines == [] then [] else Terminated(lines[..|lines| - 1], c) + lines[|lines| - 1] + [c]
  }

  /** Lines each preceded by `c` (the shape of text built with `out += '\n' + line`). */
  function Introduced(lines: seq<string>, c: char): string
  {
    if lines == [] then [] else Introduced(lines[..|lines| - 1], c) + [c] + lines[|lines| - 1]
  }

  lemma {:induction false} JoinSnoc(parts: seq<string>, x: string, c: char)
    requires |parts| >= 1
    ensures Join(parts + [x], c) == Join(parts, c) + [c] + x
  {
    if |parts| > 1 {
      assert (parts + [x])[1..] == parts[1..] + [x];
      JoinSnoc(parts[1..], x, c);
    } else {
      assert (parts + [x])[1..] == [x];
    }
  }

  lemma {:induction false} TerminatedIsJoin(lines: seq<string>, c: char)
    ensures Terminated(lines, c) == Join(lines + [[]], c)
  {
    if lines != [] {
      var init := lines[..|lines| - 1];
      var last := lines[|lines| - 1];
      TerminatedIsJoin(init, c);
      assert lines == init + [last];
      JoinSnoc(init + [last], [], c);
      var whole := Join(init + [last], c);
      assert Join(lines + [[]], c) == whole + [c] + [];
      if init == [] {
        assert init + [last] == [last];
        assert init + [[]] == [[]];
      } else {
        JoinSnoc(init, last, c);
        JoinSnoc(init, [], c);
        var j := Join(init, c);
        assert Terminated(init, c) == j + [c] + [];
        assert whole == j + [c] + last;
      }
    }
  }

  lemma {:induction false} IntroducedIsJoin(lines: seq<string>, c: char)
    ensures Introduced(lines, c) == Join([[]] + lines, c)
  {
    if lines != [] {
      var init := lines[..|lines| - 1];
      var last := lines[|lines| - 1];
      IntroducedIsJoin(init, c);
      assert [[]] + lines == ([[]] + init) + [last];
      JoinSnoc([[]] + init, last, c);
    }
  }

  /** Splitting text made of terminated lines gives the lines back, then an empty tail. */
  lemma SplitTerminated(lines: seq<string>, c: char)
    requires forall i :: 0 <= i < |lines| ==> c !in lines[i]
    ensures Split(Terminated(lines, c), c) == lines + [[]]
  {
    TerminatedIsJoin(lines, c);
    SplitJoin(lines + [[]], c);
  }

  /** Splitting text made of introduced lines gives an empty head, then the lines. */
  lemma SplitIntroduced(lines: seq<string>, c: char)
    requires forall i :: 0 <= i < |lines| ==> c !in lines[i]
    ensures Split(Introduced(lines, c), c) == [[]] + lines
  {
    IntroducedIsJoin(lines, c);
    SplitJoin([[]] + lines, c);
  }

  lemma IntroducedSnoc(lines: seq<string>, x: string, c: char)
    ensures Introduced(lines + [x], c) == Introduced(lines, c) + [c] + x
  {
    assert (lines + [x])[..|lines|] == lines;
  }

  lemma {:induction false} IntroducedAppend(a: seq<string>, b: seq<string>, c: char)
    ensures Introduced(a + b, c) == Introduced(a, c) + Introduced(b, c)
    decreases |b|
  {
    if b == [] {
      assert a + b == a;
    } else {
      var init := b[..|b| - 1];
      assert (a + b)[..|a + b| - 1] == a + init;
      assert (a + b)[|a + b| - 1] == b[|b| - 1];
      IntroducedAppend(a, init, c);
    }
  }

  /** ASCII upper-case of one character (`toUpperCase` restricted to ASCII). */
  function Upper(ch: char): char
  {
    if 'a' <= ch <= 'z' then (ch as int - 32) as char else ch
  }

  /** ASCII lower-case of one character. */
  function LowerChar(ch: char): char
  {
    if 'A' <= ch <= 'Z' then (ch as int + 32) as char else ch
  }

  /** `s.toLowerCase()` restricted to ASCII. */
  function Lower(s: string): (r: string)
    ensures |r| == |s|
    ensures forall i :: 0 <= i < |s| ==> r[i] == LowerChar(s[i])
  {
    if s == [] then [] else [LowerChar(s[0])] + Lower(s[1..])
  }
}

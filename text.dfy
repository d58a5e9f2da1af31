// The handful of host string operations the reader relies on: prefix and
// suffix tests, character replacement, ASCII case mapping, and splitting and
// joining on a separator character with the host's `str.split(sep)` and
// `sep.join(parts)` behaviour.
module Text {

  predicate StartsWith(s: string, p: string) {
    |p| <= |s| && s[..|p|] == p
  }

  predicate EndsWith(s: string, p: string) {
    |p| <= |s| && s[|s| - |p|..] == p
  }

  predicate IsUpperLetter(c: char) { 'A' <= c <= 'Z' }

  predicate IsLowerLetter(c: char) { 'a' <= c <= 'z' }

  predicate IsLetter(c: char) { IsUpperLetter(c) || IsLowerLetter(c) }

  function UpperChar(c: char): char {
    if IsLowerLetter(c) then (c as int - 'a' as int + 'A' as int) as char else c
  }

  function LowerChar(c: char): char {
    if IsUpperLetter(c) then (c as int - 'A' as int + 'a' as int) as char else c
  }

  lemma CaseRoundTrip(c: char)
    requires IsLowerLetter(c)
    ensures IsUpperLetter(UpperChar(c)) && LowerChar(UpperChar(c)) == c
  {
  }

  /** Upper-casing lower-case letters yields upper-case letters, and lower-casing undoes it. */
  lemma {:induction false} LowerUpper(x: string)
    requires forall i :: 0 <= i < |x| ==> IsLowerLetter(x[i])
    ensures forall i :: 0 <= i < |x| ==> IsUpperLetter(Upper(x)[i])
    ensures Lower(Upper(x)) == x
  {
    var u := Upper(x);
    forall i | 0 <= i < |x| ensures IsUpperLetter(u[i]) && Lower(u)[i] == x[i] {
      CaseRoundTrip(x[i]);
    }
  }

  /** `s.upper()`, restricted to ASCII letters. */
  function Upper(s: string): (r: string)
    ensures |r| == |s|
    ensures forall i :: 0 <= i < |s| ==> r[i] == UpperChar(s[i])
  {
    if s == [] then [] else [UpperChar(s[0])] + Upper(s[1..])
  }

  /** `s.lower()`, restricted to ASCII letters. */
  function Lower(s: string): (r: string)
    ensures |r| == |s|
    ensures forall i :: 0 <= i < |s| ==> r[i] == LowerChar(s[i])
  {
    if s == [] then [] else [LowerChar(s[0])] + Lower(s[1..])
  }

  /** `s.replace(a, b)` for single characters: every `a` becomes `b`, nothing else moves. */
  function Replace(s: string, a: char, b: char): (r: string)
    ensures |r| == |s|
    ensures forall i :: 0 <= i < |s| ==> r[i] == (if s[i] == a then b else s[i])
  {
    if s == [] then [] else [if s[0] == a then b else s[0]] + Replace(s[1..], a, b)
  }

  /** `s.split(c)`: the maximal `c`-free pieces between separators; never empty. */
  function Split(s: string, c: char): (r: seq<string>)
    ensures |r| > 0
    ensures forall i :: 0 <= i < |r| ==> c !in r[i]
  {
    if s == [] then [""]
    else
      var rest := Split(s[1..], c);
      if s[0] == c then [""] + rest else [[s[0]] + rest[0]] + rest[1..]
  }

  /** `c.join(xs)`. */
  function Join(xs: seq<string>, c: char): string
    requires |xs| > 0
  {
    if |xs| == 1 then xs[0] else xs[0] + [c] + Join(xs[1..], c)
  }

  /** Splitting and joining again gives back the original text. */
  lemma {:induction false} JoinSplit(s: string, c: char)
    ensures Join(Split(s, c), c) == s
  {
    if s != [] {
      var rest := Split(s[1..], c);
      JoinSplit(s[1..], c);
      if s[0] == c {
        assert Split(s, c) == [""] + rest;
        assert ([""] + rest)[1..] == rest;
        assert s == [c] + s[1..];
      } else {
        var parts := Split(s, c);
        assert parts == [[s[0]] + rest[0]] + rest[1..];
        if |rest| == 1 {
          assert parts == [[s[0]] + rest[0]];
        } else {
          assert parts[1..] == rest[1..];
          assert Join(rest, c) == rest[0] + [c] + Join(rest[1..], c);
          assert s == [s[0]] + s[1..];
        }
      }
    }
  }

  lemma {:induction false} SplitNoSeparator(x: string, c: char)
    requires c !in x
    ensures Split(x, c) == [x]
  {
    if x != [] {
      SplitNoSeparator(x[1..], c);
      assert [x[0]] + x[1..] == x;
    }
  }

  lemma {:induction false} SplitAfterPiece(x: string, y: string, c: char)
    requires c !in x
    ensures Split(x + [c] + y, c) == [x] + Split(y, c)
  {
    if x == [] {
      assert x + [c] + y == [c] + y;
      assert ([c] + y)[1..] == y;
    } else {
      SplitAfterPiece(x[1..], y, c);
      assert (x + [c] + y)[1..] == x[1..] + [c] + y;
      assert [x[0]] + x[1..] == x;
    }
  }

  /** Joining separator-free pieces and splitting again gives back the pieces. */
  lemma {:induction false} SplitJoin(xs: seq<string>, c: char)
    requires |xs| > 0
    requires forall i :: 0 <= i < |xs| ==> c !in xs[i]
    ensures Split(Join(xs, c), c) == xs
  {
    if |xs| == 1 {
      SplitNoSeparator(xs[0], c);
    } else {
      SplitJoin(xs[1..], c);
      SplitAfterPiece(xs[0], Join(xs[1..], c), c);
      assert [xs[0]] + xs[1..] == xs;
    }
  }
}

// Identifier mangling (hy/lex/parser.py, hy_symbol_mangle and
// hy_symbol_unmangle): the rewrite of one dot-free segment of a symbol into a
// name usable by the host language, and the best-effort rewrite back for
// display. Each function applies its four rules in a fixed order, each rule to
// the output of the previous one.
module Mangling {
  import opened Text

  // ---- hy_symbol_mangle, one function per rule ----

  /** Rule 1: `*name*` becomes `NAME`, except for the texts `*` and `**`. */
  function Earmuffs(p: string): string {
    if StartsWith(p, "*") && EndsWith(p, "*") && p != "*" && p != "**" then
      Upper(p[1..|p| - 1])
    else p
  }

  /** Rule 2: every `-` becomes `_`, unless the text is exactly `-`. */
  function Hyphens(p: string): string {
    if '-' in p && p != "-" then Replace(p, '-', '_') else p
  }

  /** Rule 3: a trailing `?` becomes an `is_` prefix, unless the text is exactly `?`. */
  function Question(p: string): string {
    if EndsWith(p, "?") && p != "?" then "is_" + p[..|p| - 1] else p
  }

  /** Rule 4: a trailing `!` becomes a `_bang` suffix, unless the text is exactly `!`. */
  function Bang(p: string): string {
    if EndsWith(p, "!") && p != "!" then p[..|p| - 1] + "_bang" else p
  }

  function Mangle(p: string): string {
    Bang(Question(Hyphens(Earmuffs(p))))
  }

  // ---- hy_symbol_unmangle, one function per rule ----

  /** Rule 1: a `_bang` suffix becomes `!`, unless the text is exactly `_bang`. */
  function UnBang(p: string): string {
    if EndsWith(p, "_bang") && p != "_bang" then p[..|p| - 5] + "!" else p
  }

  /** Rule 2: an `is_` prefix moves to a `?` suffix, unless the text is exactly `is_`. */
  function UnQuestion(p: string): string {
    if StartsWith(p, "is_") && p != "is_" then p[3..] + "?" else p
  }

  /** Rule 3: every `_` becomes `-`, unless the text is exactly `_`. */
  function UnHyphens(p: string): string {
    if '_' in p && p != "_" then Replace(p, '_', '-') else p
  }

  /** Only upper-case letters and `_`, and at least one letter. */
  predicate Shouting(p: string) {
    (forall i :: 0 <= i < |p| ==> IsUpperLetter(p[i]) || p[i] == '_') &&
    (exists i :: 0 <= i < |p| && IsLetter(p[i]))
  }

  /** Rule 4: a shouting name becomes `*name*` in lower case. */
  function UnEarmuffs(p: string): string {
    if Shouting(p) then "*" + Lower(p) + "*" else p
  }

  function Unmangle(p: string): string {
    UnEarmuffs(UnHyphens(UnQuestion(UnBang(p))))
  }

  // ---- when each rule leaves a text alone ----

  lemma NoEarmuffs(p: string)
    requires p == [] || p[0] != '*'
    ensures Earmuffs(p) == p
  {
  }

  lemma NoHyphens(p: string)
    requires '-' !in p
    ensures Hyphens(p) == p
  {
  }

  lemma NoQuestion(p: string)
    requires p == [] || p[|p| - 1] != '?'
    ensures Question(p) == p
  {
  }

  lemma NoBang(p: string)
    requires p == [] || p[|p| - 1] != '!'
    ensures Bang(p) == p
  {
  }

  lemma NoUnBang(p: string)
    requires |p| < 5 || p[|p| - 5] != '_' || p[|p| - 1] != 'g'
    ensures UnBang(p) == p
  {
  }

  lemma NoUnQuestion(p: string)
    requires |p| < 3 || p[0] != 'i' || p[2] != '_'
    ensures UnQuestion(p) == p
  {
  }

  lemma NoUnHyphens(p: string)
    requires '_' !in p
    ensures UnHyphens(p) == p
  {
  }

  // ---- properties of Mangle ----

  /** No marker at all: no `-`, no earmuffs, no trailing `?` or `!`. */
  predicate Unmarked(p: string) {
    '-' !in p && !(StartsWith(p, "*") && EndsWith(p, "*")) && !EndsWith(p, "?") && !EndsWith(p, "!")
  }

  /** A single character is never rewritten: each rule excludes the text that is only its marker. */
  lemma MangleSingle(c: char)
    ensures Mangle([c]) == [c]
  {
    var p := [c];
    if c == '*' {
      assert p == "*";
    }
    assert Earmuffs(p) == p;
    if c == '-' {
      assert p == "-";
    } else {
      NoHyphens(p);
    }
    if c == '?' {
      assert p == "?";
    } else {
      NoQuestion(p);
    }
    if c == '!' {
      assert p == "!";
    } else {
      NoBang(p);
    }
  }

  /** The single-character exceptions come through unchanged. */
  lemma {:induction false} MangleExceptions()
    ensures Mangle("-") == "-" && Mangle("?") == "?" && Mangle("!") == "!"
    ensures Mangle("*") == "*" && Mangle("**") == "**"
  {
    MangleSingle('-');
    MangleSingle('?');
    MangleSingle('!');
    MangleSingle('*');
    assert Earmuffs("**") == "**";
    NoHyphens("**");
    NoQuestion("**");
    NoBang("**");
  }

  /** Text carrying none of the four markers comes through unchanged. */
  lemma {:induction false} MangleUnmarked(p: string)
    requires Unmarked(p)
    ensures Mangle(p) == p
  {
  }

  /** Mangled text contains `-` only when it is exactly `-`. */
  lemma {:induction false} MangleHyphenFree(p: string)
    ensures '-' in Mangle(p) ==> Mangle(p) == "-"
  {
    var h := Hyphens(Earmuffs(p));
    assert '-' in h ==> h == "-" by {
      if '-' in Earmuffs(p) && Earmuffs(p) != "-" {
        assert forall i :: 0 <= i < |h| ==> h[i] != '-';
      }
    }
    var q := Question(h);
    assert '-' in q ==> q == "-" by {
      if EndsWith(h, "?") && h != "?" {
        assert q == "is_" + h[..|h| - 1];
        assert '-' !in h[..|h| - 1];
      }
    }
    var r := Bang(q);
    if EndsWith(q, "!") && q != "!" {
      assert r == q[..|q| - 1] + "_bang";
      assert '-' !in q[..|q| - 1];
    }
  }

  /** Mangling never introduces a `.`, so a dot-free segment stays dot-free. */
  lemma {:induction false} MangleDotFree(p: string)
    requires '.' !in p
    ensures '.' !in Mangle(p)
  {
    var e := Earmuffs(p);
    assert '.' !in e by {
      if e != p {
        assert forall i :: 0 <= i < |e| ==> e[i] == UpperChar(p[i + 1]);
      }
    }
    var h := Hyphens(e);
    assert '.' !in h;
    var q := Question(h);
    assert '.' !in q by {
      if q != h {
        assert q == "is_" + h[..|h| - 1];
        assert forall i :: 0 <= i < |h| - 1 ==> h[..|h| - 1][i] == h[i];
      }
    }
    var r := Bang(q);
    if r != q {
      assert r == q[..|q| - 1] + "_bang";
      assert forall i :: 0 <= i < |q| - 1 ==> q[..|q| - 1][i] == q[i];
    }
  }

  /** Mangle is not idempotent: a double `?` is rewritten once per application. */
  lemma {:induction false} MangleNotIdempotent()
    ensures Mangle("a??") == "is_a?"
    ensures Mangle(Mangle("a??")) == "is_is_a"
  {
    NoEarmuffs("a??");
    NoHyphens("a??");
    assert Question("a??") == "is_a?" by { assert "a??"[..2] == "a?"; }
    NoBang("is_a?");
    NoEarmuffs("is_a?");
    NoHyphens("is_a?");
    assert Question("is_a?") == "is_is_a" by { assert "is_a?"[..4] == "is_a"; }
    NoBang("is_is_a");
  }

  /** Mangle is not injective, so Unmangle cannot always undo it: `a-b` and `a_b` meet. */
  lemma {:induction false} MangleNotInjective()
    ensures Mangle("a-b") == Mangle("a_b") == "a_b"
    ensures Unmangle("a_b") == "a-b"
  {
    NoEarmuffs("a-b");
    assert Hyphens("a-b") == "a_b" by { assert Replace("a-b", '-', '_') == "a_b"; }
    NoQuestion("a_b");
    NoBang("a_b");
    NoEarmuffs("a_b");
    NoHyphens("a_b");
    NoUnBang("a_b");
    NoUnQuestion("a_b");
    assert UnHyphens("a_b") == "a-b" by { assert Replace("a_b", '_', '-') == "a-b"; }
    assert !Shouting("a-b") by { assert !IsUpperLetter('a'); }
  }

  // ---- the round trip ----

  /** Lower-case letters and hyphens only: the shape of an ordinary Hy name. */
  predicate LowerKebab(s: string) {
    forall i :: 0 <= i < |s| ==> IsLowerLetter(s[i]) || s[i] == '-'
  }

  /** What Mangle does to a lower-kebab name: only the hyphen rule fires. */
  lemma {:induction false} MangleLowerKebab(s: string)
    requires LowerKebab(s)
    ensures Mangle(s) == (if s == "-" then s else Replace(s, '-', '_'))
  {
    NoEarmuffs(s);
    var h := if s == "-" then s else Replace(s, '-', '_');
    assert Hyphens(s) == h by {
      if '-' !in s {
        assert Replace(s, '-', '_') == s;
      }
    }
    assert h == [] || (IsLowerLetter(h[|h| - 1]) || h[|h| - 1] == '_' || h[|h| - 1] == '-');
    NoQuestion(h);
    NoBang(h);
  }

  /** Equal slices of two `b`-free texts stay equal, and only then, after replacing `a` by `b`. */
  lemma {:induction false} ReplaceSliceMatches(s: string, t: string, a: char, b: char, k: nat)
    requires b !in s && b !in t && k + |t| <= |s|
    ensures Replace(s, a, b)[k..k + |t|] == Replace(t, a, b) <==> s[k..k + |t|] == t
  {
    var rs, rt := Replace(s, a, b), Replace(t, a, b);
    if rs[k..k + |t|] == rt {
      forall i | 0 <= i < |t| ensures s[k + i] == t[i] {
        assert rs[k + i] == rt[i];
      }
      assert s[k..k + |t|] == t;
    }
    if s[k..k + |t|] == t {
      forall i | 0 <= i < |t| ensures rs[k + i] == rt[i] {
        assert s[k + i] == t[i];
      }
    }
  }

  /** Unmangled text ending in `!` or `?` keeps that last character through the last two rules. */
  lemma {:induction false} MarkedEndSurvives(p: string)
    requires |p| > 0 && (p[|p| - 1] == '!' || p[|p| - 1] == '?')
    ensures |UnEarmuffs(UnHyphens(p))| > 0
    ensures UnEarmuffs(UnHyphens(p))[|UnEarmuffs(UnHyphens(p))| - 1] == p[|p| - 1]
  {
    var u := UnHyphens(p);
    assert |u| == |p| && u[|u| - 1] == p[|p| - 1];
    assert !Shouting(u) by { assert !(IsUpperLetter(u[|u| - 1]) || u[|u| - 1] == '_'); }
  }

  lemma {:induction false} KebabHasNoUnderscore(s: string)
    requires LowerKebab(s)
    ensures '_' !in s
  {
    forall i | 0 <= i < |s| ensures s[i] != '_' { }
  }

  /** The mangled kebab name ends in `_bang` exactly when the name ends in `-bang`. */
  lemma {:induction false} KebabBangSuffix(s: string)
    requires LowerKebab(s) && s != "-"
    ensures var h := Replace(s, '-', '_');
      EndsWith(h, "_bang") && h != "_bang" <==> EndsWith(s, "-bang") && s != "-bang"
  {
    KebabHasNoUnderscore(s);
    var h := Replace(s, '-', '_');
    assert Replace("-bang", '-', '_') == "_bang";
    if |s| >= 5 {
      ReplaceSliceMatches(s, "-bang", '-', '_', |s| - 5);
      assert h[|s| - 5..|s|] == h[|h| - 5..] && s[|s| - 5..|s|] == s[|s| - 5..];
      if |s| == 5 {
        assert h[0..5] == h && s[0..5] == s;
      }
    }
  }

  /** The mangled kebab name starts with `is_` exactly when the name starts with `is-`. */
  lemma {:induction false} KebabIsPrefix(s: string)
    requires LowerKebab(s) && s != "-"
    ensures var h := Replace(s, '-', '_');
      StartsWith(h, "is_") && h != "is_" <==> StartsWith(s, "is-") && s != "is-"
  {
    KebabHasNoUnderscore(s);
    var h := Replace(s, '-', '_');
    assert Replace("is-", '-', '_') == "is_";
    if |s| >= 3 {
      ReplaceSliceMatches(s, "is-", '-', '_', 0);
      assert h[0..3] == h[..3] && s[0..3] == s[..3];
      if |s| == 3 {
        assert h[0..3] == h && s[0..3] == s;
      }
    }
  }

  /** Unmangle's hyphen rule undoes Mangle's on a kebab name. */
  lemma {:induction false} KebabHyphensBack(s: string)
    requires LowerKebab(s)
    ensures UnHyphens(if s == "-" then s else Replace(s, '-', '_')) == s
  {
    KebabHasNoUnderscore(s);
    if s != "-" {
      var h := Replace(s, '-', '_');
      if '_' in h {
        var r := Replace(h, '_', '-');
        assert |r| == |s|;
        forall i | 0 <= i < |s| ensures r[i] == s[i] { }
      } else {
        assert |h| == |s|;
        forall i | 0 <= i < |s| ensures h[i] == s[i] {
          assert h[i] != '_';
        }
      }
    }
  }

  /** A kebab name never shouts: it has no upper-case letter. */
  lemma {:induction false} KebabQuiet(s: string)
    requires LowerKebab(s)
    ensures !Shouting(s)
  {
    forall i | 0 <= i < |s| && IsLetter(s[i]) ensures !(IsUpperLetter(s[i]) || s[i] == '_') { }
  }

  /**
   * For a lower-kebab name, unmangling the mangled name gives the name back
   * exactly when the name neither has an `is-` prefix nor a `-bang` suffix
   * (beyond being exactly `is-` or `-bang`).
   */
  lemma {:induction false} RoundTrip(s: string)
    requires LowerKebab(s)
    ensures Unmangle(Mangle(s)) == s <==>
              !(StartsWith(s, "is-") && s != "is-") && !(EndsWith(s, "-bang") && s != "-bang")
  {
    MangleLowerKebab(s);
    var h := Mangle(s);
    if s == "-" {
      assert !EndsWith(s, "-bang") && !StartsWith(s, "is-");
      assert Unmangle(h) == s by { KebabHyphensBack(s); KebabQuiet(s); }
    } else {
      KebabBangSuffix(s);
      KebabIsPrefix(s);
      var b := UnBang(h);
      if EndsWith(s, "-bang") && s != "-bang" {
        var q := UnQuestion(b);
        assert |q| > 0 && (q[|q| - 1] == '!' || q[|q| - 1] == '?');
        MarkedEndSurvives(q);
        assert s[|s| - 1] == 'g';
      } else if StartsWith(s, "is-") && s != "is-" {
        var q := UnQuestion(b);
        assert q[|q| - 1] == '?';
        MarkedEndSurvives(q);
        assert IsLowerLetter(s[|s| - 1]) || s[|s| - 1] == '-';
      } else {
        assert UnQuestion(b) == h;
        KebabHyphensBack(s);
        KebabQuiet(s);
      }
    }
  }

  /** An earmuffed lower-case name is upper-cased by Mangle and restored by Unmangle. */
  lemma {:induction false} EarmuffRoundTrip(x: string)
    requires |x| > 0 && forall i :: 0 <= i < |x| ==> IsLowerLetter(x[i])
    ensures Mangle("*" + x + "*") == Upper(x)
    ensures Unmangle(Upper(x)) == "*" + x + "*"
  {
    LowerUpper(x);
    EarmuffMangle(x);
    EarmuffUnmangle(x);
  }

  lemma EarmuffMangle(x: string)
    requires |x| > 0 && forall i :: 0 <= i < |Upper(x)| ==> IsUpperLetter(Upper(x)[i])
    ensures Mangle("*" + x + "*") == Upper(x)
  {
    var p := "*" + x + "*";
    assert StartsWith(p, "*") && EndsWith(p, "*");
    assert p[1..|p| - 1] == x;
    var u := Upper(x);
    assert Earmuffs(p) == u;
    NoHyphens(u);
    NoQuestion(u);
    NoBang(u);
  }

  lemma EarmuffUnmangle(x: string)
    requires |x| > 0 && forall i :: 0 <= i < |Upper(x)| ==> IsUpperLetter(Upper(x)[i])
    requires Lower(Upper(x)) == x
    ensures Unmangle(Upper(x)) == "*" + x + "*"
  {
    var u := Upper(x);
    NoUnBang(u);
    NoUnQuestion(u);
    NoUnHyphens(u);
    assert Shouting(u) by { assert IsLetter(u[0]); }
  }
}

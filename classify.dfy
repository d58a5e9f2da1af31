// Identifier classification (hy/lex/parser.py, symbol_like and t_identifier):
// an IDENTIFIER token's text is tried as an integer, a fraction, a float, a
// complex number and a keyword, in that order; only when all of these fail is
// it a symbol, whose dot-separated segments are mangled one by one.
module Classify {
  import opened Outcomes
  import opened Text
  import opened Mangling
  import opened Syntax

  /**
   * The host's numeric literal constructors, which the reader calls and does
   * not define: the integer parser (HyInteger) as a partial function, and
   * whether the float (HyFloat) and complex (HyComplex) constructors accept a
   * text.
   */
  datatype Numerics = Numerics(integer: string -> Option<int>, isFloat: string -> bool, isComplex: string -> bool)

  /** The two sides of a text with exactly one `/`, when both are integers. */
  predicate IsFraction(nums: Numerics, obj: string) {
    var parts := Split(obj, '/');
    '/' in obj && |parts| == 2 && nums.integer(parts[0]).Some? && nums.integer(parts[1]).Some?
  }

  function FractionForm(a: int, b: int): Form {
    Expression([Sym("fraction"), Node(Integer(a), None), Node(Integer(b), None)])
  }

  /** symbol_like: the number or keyword `obj` denotes, if any. */
  function SymbolLike(nums: Numerics, obj: string): Option<Form> {
    if nums.integer(obj).Some? then Some(Integer(nums.integer(obj).value))
    else if IsFraction(nums, obj) then
      var parts := Split(obj, '/');
      Some(FractionForm(nums.integer(parts[0]).value, nums.integer(parts[1]).value))
    else if nums.isFloat(obj) then Some(Float(obj))
    else if obj != "j" && nums.isComplex(obj) then Some(Complex(obj))
    else if StartsWith(obj, ":") && '.' !in obj then Some(Keyword(obj))
    else None
  }

  function MangleAll(xs: seq<string>): (r: seq<string>)
    ensures |r| == |xs|
    ensures forall i :: 0 <= i < |xs| ==> r[i] == Mangle(xs[i])
  {
    if xs == [] then [] else [Mangle(xs[0])] + MangleAll(xs[1..])
  }

  /** The symbol name of an identifier: each `.`-separated segment mangled, rejoined with `.`. */
  function SymbolName(obj: string): string {
    Join(MangleAll(Split(obj, '.')), '.')
  }

  /** t_identifier's body: the form the token's text denotes, or the attribute error at the token. */
  function IdentifierForm(nums: Numerics, tok: Token): Result<Form, ParseError> {
    var obj := tok.value;
    match SymbolLike(nums, obj)
    case Some(f) => Ok(f)
    case None =>
      if '.' in obj && SymbolLike(nums, Split(obj, '.')[0]).Some? then
        Err(Malformed(AttributeOnLiteral, tok.line, tok.col))
      else
        Ok(Symbol(SymbolName(obj)))
  }

  /** t_identifier as the reader calls it: its form stamped with the token's span by set_boundaries. */
  function IdentifierAction(nums: Numerics, tok: Token): Result<Node, ParseError> {
    var f :- IdentifierForm(nums, tok);
    Ok(SetBoundaries(f, [tok]))
  }

  /** Every `.`-separated segment of a symbol name is free of `-` unless it is exactly `-`. */
  predicate MangledName(name: string) {
    var segs := Split(name, '.');
    forall k :: 0 <= k < |segs| ==> ('-' in segs[k] ==> segs[k] == "-")
  }

  // ---- properties ----

  /**
   * The order of trial: an integer wins over everything; a fraction needs the
   * integer parse to fail; a float needs both to fail; the bare text `j` is
   * never complex; a keyword needs a leading `:`, no `.`, and every numeric
   * parse to fail.
   */
  lemma ClassificationOrder(nums: Numerics, obj: string)
    ensures nums.integer(obj).Some? ==> SymbolLike(nums, obj) == Some(Integer(nums.integer(obj).value))
    ensures (SymbolLike(nums, obj).Some? && SymbolLike(nums, obj).value.Integer?) <==> nums.integer(obj).Some?
    ensures (SymbolLike(nums, obj).Some? && SymbolLike(nums, obj).value.Expression?) <==>
              nums.integer(obj).None? && IsFraction(nums, obj)
    ensures (SymbolLike(nums, obj).Some? && SymbolLike(nums, obj).value.Float?) <==>
              nums.integer(obj).None? && !IsFraction(nums, obj) && nums.isFloat(obj)
    ensures (SymbolLike(nums, obj).Some? && SymbolLike(nums, obj).value.Complex?) <==>
              nums.integer(obj).None? && !IsFraction(nums, obj) && !nums.isFloat(obj) && obj != "j" && nums.isComplex(obj)
    ensures (SymbolLike(nums, obj).Some? && SymbolLike(nums, obj).value.Keyword?) <==>
              nums.integer(obj).None? && !IsFraction(nums, obj) && !nums.isFloat(obj) &&
              !(obj != "j" && nums.isComplex(obj)) && StartsWith(obj, ":") && '.' !in obj
    ensures SymbolLike(nums, obj).Some? && SymbolLike(nums, obj).value.Keyword? ==>
              SymbolLike(nums, obj).value.text == obj
    ensures SymbolLike(nums, obj).None? <==>
              nums.integer(obj).None? && !IsFraction(nums, obj) && !nums.isFloat(obj) &&
              !(obj != "j" && nums.isComplex(obj)) && !(StartsWith(obj, ":") && '.' !in obj)
  {
  }

  /**
   * A fraction is read exactly from a text `lhs/rhs` with a single `/` whose
   * sides are both integers (and that is not an integer itself); the form
   * holds the two integers in order.
   */
  lemma FractionExactlyOneSlash(nums: Numerics, lhs: string, rhs: string)
    ensures var obj := lhs + "/" + rhs;
      ('/' !in lhs && '/' !in rhs && nums.integer(obj).None? &&
       nums.integer(lhs).Some? && nums.integer(rhs).Some?) ==>
        SymbolLike(nums, obj) == Some(FractionForm(nums.integer(lhs).value, nums.integer(rhs).value))
    ensures var obj := lhs + "/" + rhs;
      ('/' in lhs || '/' in rhs) ==> !(SymbolLike(nums, obj).Some? && SymbolLike(nums, obj).value.Expression?)
  {
    var obj := lhs + "/" + rhs;
    if '/' !in lhs && '/' !in rhs {
      SplitJoin([lhs, rhs], '/');
      assert Join([lhs, rhs], '/') == obj;
      assert '/' in obj by { assert obj[|lhs|] == '/'; }
    } else {
      SplitSlashes(lhs, rhs);
      ClassificationOrder(nums, obj);
    }
  }

  lemma SplitSlashes(lhs: string, rhs: string)
    requires '/' in lhs || '/' in rhs
    ensures |Split(lhs + "/" + rhs, '/')| > 2
  {
    SplitCount(lhs + "/" + rhs, '/');
    SlashCount(lhs, rhs);
  }

  function CountOf(s: string, c: char): nat {
    if s == [] then 0 else (if s[0] == c then 1 else 0) + CountOf(s[1..], c)
  }

  lemma {:induction false} CountAppend(a: string, b: string, c: char)
    ensures CountOf(a + b, c) == CountOf(a, c) + CountOf(b, c)
  {
    if a != [] {
      CountAppend(a[1..], b, c);
      assert (a + b)[0] == a[0];
      assert (a + b)[1..] == a[1..] + b;
    } else {
      assert a + b == b;
    }
  }

  lemma {:induction false} CountPositive(s: string, c: char)
    ensures c in s <==> CountOf(s, c) > 0
  {
    if s != [] {
      CountPositive(s[1..], c);
      assert s == [s[0]] + s[1..];
    }
  }

  /** `s.split(c)` has one piece more than `s` has separators. */
  lemma {:induction false} SplitCount(s: string, c: char)
    ensures |Split(s, c)| == CountOf(s, c) + 1
  {
    if s != [] {
      SplitCount(s[1..], c);
    }
  }

  lemma SlashCount(lhs: string, rhs: string)
    ensures CountOf(lhs + "/" + rhs, '/') == CountOf(lhs, '/') + 1 + CountOf(rhs, '/')
    ensures CountOf(lhs + "/" + rhs, '/') == 1 <==> '/' !in lhs && '/' !in rhs
  {
    CountAppend(lhs + "/", rhs, '/');
    CountAppend(lhs, "/", '/');
    CountPositive(lhs, '/');
    CountPositive(rhs, '/');
  }

  /** t_identifier stamps what it returns with the span of the token's text. */
  lemma IdentifierSpan(nums: Numerics, tok: Token)
    ensures var r := IdentifierAction(nums, tok);
      r.Ok? ==> r.value.span == Some(Span(tok.line, tok.col, tok.line, tok.col + |tok.value|))
  {
  }

  /** t_identifier fails only with an attribute on a literal, reported at the token. */
  lemma IdentifierError(nums: Numerics, tok: Token)
    ensures var r := IdentifierAction(nums, tok);
      r.Err? ==> r.error == Malformed(AttributeOnLiteral, tok.line, tok.col)
  {
  }

  /**
   * t_identifier: a number or keyword is returned before any mangling; a
   * dotted text whose first segment is a number or keyword is malformed at the
   * token; anything else is a symbol whose segments are exactly the mangled
   * segments of the text, so no segment contains `-` except a bare `-`. The
   * span covers the token's text.
   */
  lemma IdentifierOutcome(nums: Numerics, tok: Token)
    ensures var r := IdentifierAction(nums, tok);
      SymbolLike(nums, tok.value).Some? ==> r.Ok? && r.value.form == SymbolLike(nums, tok.value).value
    ensures var r := IdentifierAction(nums, tok);
      r.Err? <==> SymbolLike(nums, tok.value).None? && '.' in tok.value &&
                  SymbolLike(nums, Split(tok.value, '.')[0]).Some?
    ensures var r := IdentifierAction(nums, tok);
      r.Err? ==> r.error == Malformed(AttributeOnLiteral, tok.line, tok.col)
    ensures var r := IdentifierAction(nums, tok);
      SymbolLike(nums, tok.value).None? && r.Ok? ==> r.value.form == Symbol(SymbolName(tok.value))
    ensures var r := IdentifierAction(nums, tok);
      r.Ok? && r.value.form.Symbol? ==>
        Split(r.value.form.name, '.') == MangleAll(Split(tok.value, '.')) && MangledName(r.value.form.name)
    ensures var r := IdentifierAction(nums, tok);
      r.Ok? ==> r.value.span == Some(Span(tok.line, tok.col, tok.line, tok.col + |tok.value|))
  {
    FormOfLiteral(nums, tok);
    FormFails(nums, tok);
    FormOfSymbol(nums, tok);
    IdentifierError(nums, tok);
    IdentifierSpan(nums, tok);
  }

  lemma FormOfLiteral(nums: Numerics, tok: Token)
    ensures SymbolLike(nums, tok.value).Some? ==> IdentifierForm(nums, tok) == Ok(SymbolLike(nums, tok.value).value)
  {
  }

  lemma FormFails(nums: Numerics, tok: Token)
    ensures IdentifierForm(nums, tok).Err? <==>
      SymbolLike(nums, tok.value).None? && '.' in tok.value && SymbolLike(nums, Split(tok.value, '.')[0]).Some?
  {
  }

  lemma FormOfSymbol(nums: Numerics, tok: Token)
    ensures var r := IdentifierForm(nums, tok);
      SymbolLike(nums, tok.value).None? && r.Ok? ==> r.value == Symbol(SymbolName(tok.value))
    ensures var r := IdentifierForm(nums, tok);
      r.Ok? && r.value.Symbol? ==> Split(r.value.name, '.') == MangleAll(Split(tok.value, '.')) && MangledName(r.value.name)
  {
    var r := IdentifierForm(nums, tok);
    if r.Ok? && r.value.Symbol? {
      LiteralNotSymbol(nums, tok.value);
      assert r.value.name == SymbolName(tok.value);
      SymbolNameSegments(tok.value);
    }
  }

  /** symbol_like never makes a symbol. */
  lemma LiteralNotSymbol(nums: Numerics, obj: string)
    ensures SymbolLike(nums, obj).Some? ==> !SymbolLike(nums, obj).value.Symbol?
  {
  }

  /** The segments of a symbol name are the mangled segments of the text. */
  lemma SymbolNameSegments(obj: string)
    ensures Split(SymbolName(obj), '.') == MangleAll(Split(obj, '.'))
    ensures MangledName(SymbolName(obj))
  {
    var segs := Split(obj, '.');
    var m := MangleAll(segs);
    forall k | 0 <= k < |m| ensures '.' !in m[k] && ('-' in m[k] ==> m[k] == "-") {
      MangleDotFree(segs[k]);
      MangleHyphenFree(segs[k]);
    }
    SplitJoin(m, '.');
  }

  /**
   * An identifier whose segments mangling leaves alone, such as `foo.bar`,
   * names the symbol of its own text.
   */
  lemma PlainSymbolName(obj: string)
    requires forall k :: 0 <= k < |Split(obj, '.')| ==> Mangle(Split(obj, '.')[k]) == Split(obj, '.')[k]
    ensures SymbolName(obj) == obj
  {
    var segs := Split(obj, '.');
    assert MangleAll(segs) == segs;
    JoinSplit(obj, '.');
  }

  /** Names without `-` and `.`, such as the reader's own head symbols, are mangled names. */
  lemma PlainNameMangled(name: string)
    requires '-' !in name && '.' !in name
    ensures MangledName(name)
  {
    SplitNoSeparator(name, '.');
  }
}

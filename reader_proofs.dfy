// What the reader guarantees about the input it accepts: more input never
// turns a malformed read into a different outcome, reading a complete input
// and then more is reading the two together, a `#_` and its form leave no
// trace, the reader macros wrap exactly one form, and a malformed read blames
// either a token of the input or a semantic rule, never a token that could
// start a form.
module ReaderProofs {
  import opened Outcomes
  import opened Syntax
  import opened Classify
  import opened Actions
  import opened Reader

  // ---- what a read leaves ----

  lemma SuffixOfSuffix(a: seq<Token>, b: seq<Token>, c: seq<Token>)
    requires IsSuffix(a, b) && IsSuffix(b, c)
    ensures IsSuffix(a, c)
  {
    assert c[|c| - |a|..] == c[|c| - |b|..][|b| - |a|..];
  }

  /** A term leaves exactly the tokens after those it read. */
  lemma {:induction false} TermSuffix(nums: Numerics, ts: seq<Token>)
    requires ParseTerm(nums, ts).Ok?
    ensures IsSuffix(ParseTerm(nums, ts).value.rest, ts)
    decreases |ts|, 0
  {
    var t := ts[0];
    var rest := ParseTerm(nums, ts).value.rest;
    KindCases(t.kind);
    if IsAtom(t.kind) {
      AtomStep(nums, ts);
    } else if OpenerOf(t.kind).Some? {
      OpenerStep(nums, ts);
      BracketedSuffix(nums, OpenerOf(t.kind).value, t, ts[1..]);
    } else if t.kind == Discard {
      DiscardStep(nums, ts);
      TermSuffix(nums, ts[1..]);
      var d := ParseTerm(nums, ts[1..]).value.rest;
      TermSuffix(nums, d);
      SuffixOfSuffix(rest, d, ts[1..]);
    } else if QuoteHead(t.kind).Some? {
      QuoteStep(nums, ts);
      TermSuffix(nums, ts[1..]);
    } else if t.kind == HashStars || t.kind == HashOther {
      HashStep(nums, ts);
      TermSuffix(nums, ts[1..]);
    } else {
      assert false;
    }
  }

  /** List contents leave exactly the tokens after those they read. */
  lemma {:induction false} ContentsSuffix(nums: Numerics, ts: seq<Token>)
    requires ParseContents(nums, ts).Ok?
    ensures IsSuffix(ParseContents(nums, ts).value.rest, ts)
    decreases |ts|, 1
  {
    var rest := ParseContents(nums, ts).value.rest;
    if ts != [] && ts[0].kind == Discard {
      TermSuffix(nums, ts[1..]);
      var d := ParseTerm(nums, ts[1..]).value.rest;
      if !AtContentsEnd(d) {
        ContentsSuffix(nums, d);
        SuffixOfSuffix(rest, d, ts[1..]);
      }
    } else {
      TermSuffix(nums, ts);
      var f := ParseTerm(nums, ts).value.rest;
      if !AtContentsEnd(f) {
        ContentsSuffix(nums, f);
        SuffixOfSuffix(rest, f, ts);
      }
    }
  }

  /** A bracketed form leaves exactly the tokens after its closing bracket. */
  lemma {:induction false} BracketedSuffix(nums: Numerics, b: Bracket, open: Token, ts: seq<Token>)
    requires ParseBracketed(nums, b, open, ts).Ok?
    ensures IsSuffix(ParseBracketed(nums, b, open, ts).value.rest, ts)
    ensures var rest := ParseBracketed(nums, b, open, ts).value.rest;
      ts[|ts| - |rest| - 1].kind == CloserOf(b)
    decreases |ts|, 2
  {
    if !(ts != [] && ts[0].kind == CloserOf(b)) {
      ContentsSuffix(nums, ts);
      var c := ParseContents(nums, ts).value.rest;
      assert c[0] == ts[|ts| - |c|];
    }
  }

  // ---- reading more input ----

  /**
   * How a read of `ts` relates to the read of `ts + ext`: a successful read
   * keeps its value and is followed by the extra tokens, when the read was
   * free to stop where it did (`stops`); a malformed-input error stays the
   * same error. Only a premature end can be fixed by more input.
   */
  predicate ExtendsTo<T(==)>(r: Result<Parsed<T>, ParseError>, r2: Result<Parsed<T>, ParseError>, ext: seq<Token>, stops: bool) {
    match r
    case Ok(p) => stops ==> r2 == Ok(Parsed(p.value, p.rest + ext))
    case Err(e) => e.Malformed? ==> r2 == r
  }

  lemma FrontOfExtension(ts: seq<Token>, ext: seq<Token>)
    requires ts != []
    ensures (ts + ext)[0] == ts[0] && (ts + ext)[1..] == ts[1..] + ext
  {
  }

  lemma {:induction false} TermExtends(nums: Numerics, ts: seq<Token>, ext: seq<Token>)
    ensures ExtendsTo(ParseTerm(nums, ts), ParseTerm(nums, ts + ext), ext, true)
    decreases |ts|, 0
  {
    if ts != [] {
      FrontOfExtension(ts, ext);
      var t := ts[0];
      if IsCloser(t.kind) {
      } else if OpenerOf(t.kind).Some? {
        BracketedExtends(nums, OpenerOf(t.kind).value, t, ts[1..], ext);
      } else if t.kind == Discard {
        TermExtends(nums, ts[1..], ext);
        var d := ParseTerm(nums, ts[1..]);
        if d.Ok? {
          TermExtends(nums, d.value.rest, ext);
        }
      } else if QuoteHead(t.kind).Some? {
        WrappedExtends(nums, t, QuoteHead(t.kind).value, ts[1..], ext);
      } else if t.kind == HashStars || t.kind == HashOther {
        HashExtends(nums, t, ts[1..], ext);
      }
    }
  }

  lemma {:induction false} HashExtends(nums: Numerics, marker: Token, ts: seq<Token>, ext: seq<Token>)
    requires marker.kind == HashStars || marker.kind == HashOther
    ensures ExtendsTo(ParseHash(nums, marker, ts), ParseHash(nums, marker, ts + ext), ext, true)
    decreases |ts|, 1
  {
    TermExtends(nums, ts, ext);
  }

  lemma {:induction false} WrappedExtends(nums: Numerics, marker: Token, head: string, ts: seq<Token>, ext: seq<Token>)
    ensures ExtendsTo(ParseWrapped(nums, marker, head, ts), ParseWrapped(nums, marker, head, ts + ext), ext, true)
    decreases |ts|, 1
  {
    TermExtends(nums, ts, ext);
  }

  /**
   * Contents keep their forms under extension only where they stopped at a
   * closing bracket, or where the extra tokens could not continue them.
   */
  lemma {:induction false} ContentsExtends(nums: Numerics, ts: seq<Token>, ext: seq<Token>)
    ensures var r := ParseContents(nums, ts);
      ExtendsTo(r, ParseContents(nums, ts + ext), ext, r.Ok? && (r.value.rest != [] || AtContentsEnd(ext)))
    decreases |ts|, 1
  {
    var r := ParseContents(nums, ts);
    if ts != [] {
      FrontOfExtension(ts, ext);
    }
    if ts != [] && ts[0].kind == Discard {
      TermExtends(nums, ts[1..], ext);
      var d := ParseTerm(nums, ts[1..]);
      if d.Ok? {
        var rest := d.value.rest;
        if rest != [] {
          FrontOfExtension(rest, ext);
        }
        if !AtContentsEnd(rest) {
          ContentsExtends(nums, rest, ext);
        }
      }
    } else {
      TermExtends(nums, ts, ext);
      var first := ParseTerm(nums, ts);
      if first.Ok? {
        var rest := first.value.rest;
        if rest != [] {
          FrontOfExtension(rest, ext);
        }
        if !AtContentsEnd(rest) {
          ContentsExtends(nums, rest, ext);
        }
      }
    }
  }

  lemma {:induction false} BracketedExtends(nums: Numerics, b: Bracket, open: Token, ts: seq<Token>, ext: seq<Token>)
    ensures ExtendsTo(ParseBracketed(nums, b, open, ts), ParseBracketed(nums, b, open, ts + ext), ext, true)
    decreases |ts|, 2
  {
    if ts != [] {
      FrontOfExtension(ts, ext);
    }
    if !(ts != [] && ts[0].kind == CloserOf(b)) {
      ContentsExtends(nums, ts, ext);
      var c := ParseContents(nums, ts);
      if c.Ok? && c.value.rest != [] {
        FrontOfExtension(c.value.rest, ext);
      }
    }
  }

  /**
   * A read that fails on malformed input fails the same way whatever follows;
   * only a premature end of input can be cured by reading more.
   */
  lemma MalformedIsFinal(nums: Numerics, ts: seq<Token>, ext: seq<Token>)
    requires Parse(nums, ts).Err? && Parse(nums, ts).error.Malformed?
    ensures Parse(nums, ts + ext) == Parse(nums, ts)
  {
    ContentsExtends(nums, ts, ext);
    var c := ParseContents(nums, ts);
    if c.Ok? {
      FrontOfExtension(c.value.rest, ext);
    }
  }

  // ---- reading in pieces ----

  function Prepend(xs: seq<Node>, r: Result<seq<Node>, ParseError>): Result<seq<Node>, ParseError> {
    match r
    case Ok(ys) => Ok(xs + ys)
    case Err(e) => Err(e)
  }

  /** The contents `xs` followed by whatever `r` read. */
  function PrependParsed(xs: seq<Node>, r: Result<Parsed<seq<Node>>, ParseError>): Result<Parsed<seq<Node>>, ParseError> {
    match r
    case Ok(p) => Ok(Parsed(xs + p.value, p.rest))
    case Err(e) => Err(e)
  }

  lemma PrependTwice(xs: seq<Node>, ys: seq<Node>, r: Result<Parsed<seq<Node>>, ParseError>)
    ensures PrependParsed(xs, PrependParsed(ys, r)) == PrependParsed(xs + ys, r)
    ensures PrependParsed([], r) == r
  {
    match r
    case Ok(p) =>
      assert xs + (ys + p.value) == xs + ys + p.value;
      assert [] + p.value == p.value;
    case Err(_) =>
  }

  /** One step of list_contents, in terms of the term it reads first. */
  lemma ContentsStep(nums: Numerics, ts: seq<Token>)
    requires ts != []
    ensures ts[0].kind == Discard ==> (ParseContents(nums, ts) ==
      var d := ParseTerm(nums, ts[1..]);
      if d.Err? then Err(d.error)
      else if AtContentsEnd(d.value.rest) then Ok(Parsed([], d.value.rest))
      else ParseContents(nums, d.value.rest))
    ensures ts[0].kind != Discard ==> (ParseContents(nums, ts) ==
      var f := ParseTerm(nums, ts);
      if f.Err? then Err(f.error)
      else if AtContentsEnd(f.value.rest) then Ok(Parsed([f.value.value], f.value.rest))
      else PrependParsed([f.value.value], ParseContents(nums, f.value.rest)))
  {
  }

  /** After complete contents, any input that continues them is read as the continuation alone. */
  lemma {:induction false} ContentsConcat(nums: Numerics, a: seq<Token>, b: seq<Token>)
    requires ParseContents(nums, a).Ok? && ParseContents(nums, a).value.rest == []
    requires !AtContentsEnd(b)
    ensures ParseContents(nums, a + b) == PrependParsed(ParseContents(nums, a).value.value, ParseContents(nums, b))
    decreases |a|
  {
    FrontOfExtension(a, b);
    ContentsStep(nums, a);
    ContentsStep(nums, a + b);
    var xs := ParseContents(nums, a).value.value;
    if a[0].kind == Discard {
      TermExtends(nums, a[1..], b);
      var rest := ParseTerm(nums, a[1..]).value.rest;
      if rest == [] {
        assert rest + b == b;
        PrependTwice([], [], ParseContents(nums, b));
      } else {
        assert (rest + b)[0] == rest[0];
        ContentsConcat(nums, rest, b);
      }
    } else {
      TermExtends(nums, a, b);
      var first := ParseTerm(nums, a).value;
      if first.rest == [] {
        assert first.rest + b == b;
      } else {
        assert (first.rest + b)[0] == first.rest[0];
        ContentsConcat(nums, first.rest, b);
        PrependTwice([first.value], ParseContents(nums, first.rest).value.value, ParseContents(nums, b));
      }
    }
  }

  /** main, in terms of the contents it reads. */
  lemma ParseStep(nums: Numerics, ts: seq<Token>)
    requires ts != []
    ensures Parse(nums, ts) ==
      var c := ParseContents(nums, ts);
      if c.Err? then Err(c.error)
      else if c.value.rest == [] then Ok(c.value.value)
      else Err(UnexpectedAt(c.value.rest[0]))
  {
  }

  /** Input that starts with a closing bracket is rejected at that bracket. */
  lemma StrayCloser(nums: Numerics, ts: seq<Token>)
    requires ts != [] && IsCloser(ts[0].kind)
    ensures Parse(nums, ts) == Err(UnexpectedAt(ts[0]))
  {
    ContentsStep(nums, ts);
    ParseStep(nums, ts);
  }

  /**
   * Reading a complete input and then more is reading the two together: the
   * forms of the first come first, then whatever the second reads to,
   * including its error.
   */
  lemma ParseConcat(nums: Numerics, a: seq<Token>, b: seq<Token>)
    requires Parse(nums, a).Ok?
    ensures Parse(nums, a + b) == Prepend(Parse(nums, a).value, Parse(nums, b))
  {
    var xs := Parse(nums, a).value;
    if a == [] {
      assert a + b == b;
      PrependEmpty(Parse(nums, b));
    } else if b == [] {
      assert a + b == a;
      assert xs + [] == xs;
    } else {
      ParseStep(nums, a);
      ParseStep(nums, a + b);
      if IsCloser(b[0].kind) {
        ContentsExtends(nums, a, b);
        StrayCloser(nums, b);
      } else {
        ParseStep(nums, b);
        ContentsConcat(nums, a, b);
      }
    }
  }

  lemma PrependEmpty(r: Result<seq<Node>, ParseError>)
    ensures Prepend([], r) == r
  {
    if r.Ok? {
      assert [] + r.value == r.value;
    }
  }

  /**
   * `#_` followed by one complete form reads to nothing, and inserting it
   * between two complete inputs changes nothing about what they read to.
   */
  lemma DiscardAlone(nums: Numerics, hash: Token, d: seq<Token>)
    requires hash.kind == Discard
    requires ParseTerm(nums, d).Ok? && ParseTerm(nums, d).value.rest == []
    ensures ParseContents(nums, [hash] + d) == Ok(Parsed([], []))
    ensures Parse(nums, [hash] + d) == Ok([])
  {
    var e := [hash] + d;
    assert e[1..] == d;
    ContentsStep(nums, e);
    ParseStep(nums, e);
  }

  lemma DiscardVanishes(nums: Numerics, a: seq<Token>, hash: Token, d: seq<Token>, b: seq<Token>)
    requires hash.kind == Discard
    requires ParseTerm(nums, d).Ok? && ParseTerm(nums, d).value.rest == []
    requires Parse(nums, a).Ok?
    ensures Parse(nums, [hash] + d) == Ok([])
    ensures Parse(nums, a + ([hash] + d) + b) == Parse(nums, a + b)
  {
    DiscardAlone(nums, hash, d);
    EmptyInsert(nums, a, [hash] + d, b);
  }

  /** Inserting an input that reads to no forms between complete inputs changes nothing. */
  lemma EmptyInsert(nums: Numerics, a: seq<Token>, e: seq<Token>, b: seq<Token>)
    requires Parse(nums, a).Ok? && Parse(nums, e) == Ok([])
    ensures Parse(nums, a + e + b) == Parse(nums, a + b)
  {
    ParseConcat(nums, e, b);
    PrependEmpty(Parse(nums, b));
    ParseConcat(nums, a, e + b);
    ParseConcat(nums, a, b);
    assert a + e + b == a + (e + b);
  }

  /** `#_ x y` in term position reads as `y`. */
  lemma DiscardInTerm(nums: Numerics, hash: Token, x: seq<Token>, y: seq<Token>)
    requires hash.kind == Discard
    requires ParseTerm(nums, x).Ok? && ParseTerm(nums, x).value.rest == []
    ensures ParseTerm(nums, [hash] + x + y) == ParseTerm(nums, y)
  {
    var ts := [hash] + x + y;
    assert ts[0] == hash && ts[1..] == x + y;
    DiscardStep(nums, ts);
    TermExtends(nums, x, y);
    assert [] + y == y;
  }

  /**
   * A body that reads to no forms, such as `#_a #_b`, makes its brackets read
   * exactly as the empty brackets: `()`, `[]`, `{}` and `#{}` are an empty
   * expression, list, dict and set.
   */
  lemma EmptyBody(nums: Numerics, b: Bracket, open: Token, body: seq<Token>, close: Token)
    requires close.kind == CloserOf(b)
    requires Parse(nums, body) == Ok([])
    ensures ParseBracketed(nums, b, open, body + [close]) == Ok(Parsed(EmptyBracket(b, open, close), []))
    ensures EmptyBracket(b, open, close).form == EmptyForm(b)
  {
    BracketBody(nums, b, open, body, close);
    BuildEmpty(b, open, close);
  }

  /**
   * A body that reads to the forms `xs`, followed by the matching closing
   * bracket, makes the form the bracket's action builds from exactly `xs`:
   * `[a b]` is the list of `a` and `b` in order, `{a b}` the dict and `#{a b}`
   * the set of them, and `(a b)` whatever the paren action makes of them.
   */
  lemma BracketBody(nums: Numerics, b: Bracket, open: Token, body: seq<Token>, close: Token)
    requires close.kind == CloserOf(b)
    requires Parse(nums, body).Ok?
    ensures DotsSpanned(Parse(nums, body).value)
    ensures ParseBracketed(nums, b, open, body + [close]) ==
      var n := BuildBracket(b, open, Parse(nums, body).value, close);
      if n.Ok? then Ok(Parsed(n.value, [])) else Err(n.error)
    ensures var r := ParseBracketed(nums, b, open, body + [close]); var xs := Parse(nums, body).value;
      (b == Square ==> r.Ok? && r.value.value.form == List(xs)) &&
      (b == Curly ==> r.Ok? && r.value.value.form == Dict(xs)) &&
      (b == HashCurly ==> r.Ok? && r.value.value.form == Set(xs))
  {
    var xs := Parse(nums, body).value;
    if body == [] {
      assert body + [close] == [close];
      BuildEmpty(b, open, close);
    } else {
      BodyContents(nums, body, close);
      assert (body + [close])[0] == body[0];
      BodyStep(nums, b, open, body + [close], Parsed(xs, [close]));
    }
  }

  /** A complete input followed by a closing bracket is list contents that stop at the bracket. */
  lemma BodyContents(nums: Numerics, body: seq<Token>, close: Token)
    requires body != [] && IsCloser(close.kind)
    requires Parse(nums, body).Ok?
    ensures !IsCloser(body[0].kind)
    ensures ParseContents(nums, body + [close]) == Ok(Parsed(Parse(nums, body).value, [close]))
  {
    ParseStep(nums, body);
    if IsCloser(body[0].kind) {
      StrayCloser(nums, body);
    }
    ContentsExtends(nums, body, [close]);
    assert [] + [close] == [close];
  }

  /** A bracketed form after the contents `cont` its body read. */
  lemma BodyStep(nums: Numerics, b: Bracket, open: Token, ts: seq<Token>, cont: Parsed<seq<Node>>)
    requires !(ts != [] && ts[0].kind == CloserOf(b))
    requires ParseContents(nums, ts) == Ok(cont)
    ensures cont.rest == [] ==> ParseBracketed(nums, b, open, ts) == Err(PrematureEnd)
    ensures cont.rest != [] && cont.rest[0].kind != CloserOf(b) ==>
      ParseBracketed(nums, b, open, ts) == Err(UnexpectedAt(cont.rest[0]))
    ensures cont.rest != [] && cont.rest[0].kind == CloserOf(b) ==>
      DotsSpanned(cont.value) &&
      ParseBracketed(nums, b, open, ts) ==
        var n := BuildBracket(b, open, cont.value, cont.rest[0]);
        if n.Ok? then Ok(Parsed(n.value, cont.rest[1..])) else Err(n.error)
  {
  }

  lemma BuildEmpty(b: Bracket, open: Token, close: Token)
    ensures BuildBracket(b, open, [], close) == Ok(EmptyBracket(b, open, close))
  {
    FlattenPair([], []);
  }

  /**
   * QUOTE, QUASIQUOTE, UNQUOTE and UNQUOTESPLICE wrap the term `t` as
   * `(quote t)`, `(quasiquote t)`, `(unquote t)` and `(unquote_splice t)`.
   */
  lemma QuoteMacros(nums: Numerics, marker: Token, ts: seq<Token>)
    requires QuoteHead(marker.kind).Some?
    requires ParseTerm(nums, ts).Ok?
    ensures var c := ParseTerm(nums, ts).value;
      ParseTerm(nums, [marker] + ts) ==
        Ok(Parsed(SetQuoteBoundaries(Expression([Sym(QuoteHead(marker.kind).value), c.value]), marker, c.value), c.rest))
    ensures marker.kind == Quote ==> QuoteHead(marker.kind) == Some("quote")
    ensures marker.kind == Quasiquote ==> QuoteHead(marker.kind) == Some("quasiquote")
    ensures marker.kind == Unquote ==> QuoteHead(marker.kind) == Some("unquote")
    ensures marker.kind == UnquoteSplice ==> QuoteHead(marker.kind) == Some("unquote_splice")
  {
    var full := [marker] + ts;
    assert full[0] == marker && full[1..] == ts;
    QuoteStep(nums, full);
  }

  /**
   * `#*` and `#**` make `(unpack_iterable t)` and `(unpack_mapping t)`, and any
   * other star count is malformed at the marker.
   */
  lemma StarMacros(nums: Numerics, marker: Token, ts: seq<Token>)
    requires marker.kind == HashStars
    requires ParseTerm(nums, ts).Ok?
    ensures var c := ParseTerm(nums, ts).value;
      var r := ParseTerm(nums, [marker] + ts);
      (marker.value == "#*" ==>
        r == Ok(Parsed(SetQuoteBoundaries(Expression([Sym("unpack_iterable"), c.value]), marker, c.value), c.rest))) &&
      (marker.value == "#**" ==>
        r == Ok(Parsed(SetQuoteBoundaries(Expression([Sym("unpack_mapping"), c.value]), marker, c.value), c.rest))) &&
      (|marker.value| != 2 && |marker.value| != 3 ==> r == Err(Malformed(TooManyStars, marker.line, marker.col)))
  {
    var full := [marker] + ts;
    assert full[0] == marker && full[1..] == ts;
    HashStep(nums, full);
  }

  /** `#tag t` makes `(dispatch_tag_macro "tag" t)`, with the tag unmangled. */
  lemma TagMacro(nums: Numerics, marker: Token, ts: seq<Token>)
    requires marker.kind == HashOther && |marker.value| > 0
    requires ParseTerm(nums, ts).Ok?
    ensures var c := ParseTerm(nums, ts).value;
      ParseTerm(nums, [marker] + ts) ==
        Ok(Parsed(SetQuoteBoundaries(Expression([Sym("dispatch_tag_macro"), Node(String(marker.value[1..], None), None), c.value]), marker, c.value), c.rest))
  {
    var full := [marker] + ts;
    assert full[0] == marker && full[1..] == ts;
    HashStep(nums, full);
  }

  /** A reader macro whose term fails fails with the term's error. */
  lemma ReaderMacroFails(nums: Numerics, marker: Token, ts: seq<Token>)
    requires marker.kind in {Quote, Quasiquote, Unquote, UnquoteSplice, HashStars, HashOther}
    requires ParseTerm(nums, ts).Err?
    ensures ParseTerm(nums, [marker] + ts) == Err(ParseTerm(nums, ts).error)
  {
    var full := [marker] + ts;
    assert full[0] == marker && full[1..] == ts;
    if QuoteHead(marker.kind).Some? {
      QuoteStep(nums, full);
    } else {
      HashStep(nums, full);
    }
  }
}

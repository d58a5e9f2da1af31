// Spans and well-formedness of what the reader builds.
module FormProofs {
  import opened Outcomes
  import opened Text
  import opened Syntax
  import opened Classify
  import opened Actions
  import opened Reader
  import opened ReaderProofs

  // ---- spans ----

  /** The last token a read consumed. */
  function LastRead(ts: seq<Token>, rest: seq<Token>): Token
    requires |rest| < |ts|
  {
    ts[|ts| - |rest| - 1]
  }

  /** A bracketed form spans from its opening bracket to the closing bracket it consumed last. */
  lemma BracketedSpan(nums: Numerics, b: Bracket, open: Token, ts: seq<Token>)
    requires ParseBracketed(nums, b, open, ts).Ok?
    ensures var p := ParseBracketed(nums, b, open, ts).value;
      LastRead(ts, p.rest).kind == CloserOf(b) &&
      p.value.span == Some(PairSpan(open, LastRead(ts, p.rest)))
  {
    if !(ts != [] && ts[0].kind == CloserOf(b)) {
      ContentsSuffix(nums, ts);
      var c := ParseContents(nums, ts).value;
      assert LastRead(ts, c.rest[1..]) == c.rest[0];
    }
  }

  /** A wrapped term spans from its marker to the end of the term it wraps. */
  lemma {:induction false} WrappedSpan(nums: Numerics, marker: Token, head: string, ts: seq<Token>)
    requires ParseWrapped(nums, marker, head, ts).Ok?
    ensures var p := ParseWrapped(nums, marker, head, ts).value;
      SpanEnd(p.value.span.value) == TokenEnd(LastRead(ts, p.rest)) &&
      SpanStart(p.value.span.value) == (marker.line, marker.col)
    decreases |ts|, 2
  {
    TermSpan(nums, ts);
  }

  /** `#*` and `#tag` forms span from the marker to the end of the term they apply to. */
  lemma {:induction false} HashSpan(nums: Numerics, marker: Token, ts: seq<Token>)
    requires marker.kind == HashStars || marker.kind == HashOther
    requires ParseHash(nums, marker, ts).Ok?
    ensures var p := ParseHash(nums, marker, ts).value;
      SpanEnd(p.value.span.value) == TokenEnd(LastRead(ts, p.rest)) &&
      SpanStart(p.value.span.value) == (marker.line, marker.col)
    decreases |ts|, 2
  {
    TermSpan(nums, ts);
  }

  /** An identifier or a string spans its own text. */
  lemma AtomSpan(nums: Numerics, t: Token, rest: seq<Token>)
    requires IsAtom(t.kind) && Atom(nums, t, rest).Ok?
    ensures Atom(nums, t, rest).value.value.span == Some(Span(t.line, t.col, t.line, t.col + |t.value|))
  {
    if t.kind.Identifier? {
      IdentifierSpan(nums, t);
    }
  }

  /**
   * set_boundaries and set_quote_boundaries together: the span of a form read
   * from `ts` ends where the last token it consumed ends (a closing bracket's
   * start, any other token's end), and starts at the first token, unless that
   * is a `#_`, whose form is the one after the discarded one.
   */
  lemma {:induction false} TermSpan(nums: Numerics, ts: seq<Token>)
    requires ParseTerm(nums, ts).Ok?
    ensures var p := ParseTerm(nums, ts).value;
      SpanEnd(p.value.span.value) == TokenEnd(LastRead(ts, p.rest))
    ensures var p := ParseTerm(nums, ts).value;
      ts[0].kind != Discard ==> SpanStart(p.value.span.value) == (ts[0].line, ts[0].col)
    decreases |ts|, 1
  {
    var t := ts[0];
    var p := ParseTerm(nums, ts).value;
    KindCases(t.kind);
    if IsAtom(t.kind) {
      AtomStep(nums, ts);
      AtomSpan(nums, t, ts[1..]);
    } else if OpenerOf(t.kind).Some? {
      OpenerStep(nums, ts);
      BracketedSpan(nums, OpenerOf(t.kind).value, t, ts[1..]);
    } else if t.kind == Discard {
      DiscardStep(nums, ts);
      var d := ParseTerm(nums, ts[1..]).value;
      TermSuffix(nums, ts[1..]);
      TermSpan(nums, d.rest);
      assert LastRead(d.rest, p.rest) == LastRead(ts, p.rest);
    } else if QuoteHead(t.kind).Some? {
      QuoteStep(nums, ts);
      WrappedSpan(nums, t, QuoteHead(t.kind).value, ts[1..]);
    } else if t.kind == HashStars || t.kind == HashOther {
      HashStep(nums, ts);
      HashSpan(nums, t, ts[1..]);
    } else {
      assert false;
    }
  }

  // ---- well-formed forms ----

  /**
   * What every form the reader builds satisfies: symbol names are mangled, a
   * keyword is its `:`-prefixed text without a `.`, and no cons cell holds a
   * bare `.` (collections may: only parentheses reject dots).
   */
  predicate WellFormed(n: Node)
    decreases n
  {
    match n.form
    case Symbol(name) => MangledName(name)
    case Keyword(text) => StartsWith(text, ":") && '.' !in text
    case Cons(car, cdr) => !IsDot(car) && !IsDot(cdr) && WellFormed(car) && WellFormed(cdr)
    case Expression(items) => forall i :: 0 <= i < |items| ==> WellFormed(items[i])
    case List(items) => forall i :: 0 <= i < |items| ==> WellFormed(items[i])
    case Dict(items) => forall i :: 0 <= i < |items| ==> WellFormed(items[i])
    case Set(items) => forall i :: 0 <= i < |items| ==> WellFormed(items[i])
    case _ => true
  }

  predicate AllWellFormed(xs: seq<Node>) {
    forall i :: 0 <= i < |xs| ==> WellFormed(xs[i])
  }

  lemma HeadWellFormed(name: string)
    requires '-' !in name && '.' !in name
    ensures WellFormed(Sym(name))
  {
    PlainNameMangled(name);
  }

  lemma IdentifierWellFormed(nums: Numerics, tok: Token)
    requires IdentifierAction(nums, tok).Ok?
    ensures WellFormed(IdentifierAction(nums, tok).value)
  {
    IdentifierOutcome(nums, tok);
    HeadWellFormed("fraction");
  }

  /** A dotted list that passes the dot check has no bare `.` first or last. */
  lemma DottedEnds(cont: seq<Node>)
    requires DotsSpanned(cont) && Dotted(cont)
    requires SpuriousDots([cont[..|cont| - 2], cont[|cont| - 1..]]).None?
    ensures !IsDot(cont[0]) && !IsDot(cont[|cont| - 1])
  {
    var n := |cont|;
    FlattenPair(cont[..n - 2], cont[n - 1..]);
    var kept := cont[..n - 2] + cont[n - 1..];
    assert kept[0] == cont[0] && kept[|kept| - 1] == cont[n - 1];
  }

  /** The paren action keeps bare dots out of every cons cell it builds. */
  lemma {:induction false} ParenWellFormed(open: Token, cont: seq<Node>, close: Token)
    requires DotsSpanned(cont) && AllWellFormed(cont)
    requires Paren(open, cont, close).Ok?
    ensures WellFormed(Paren(open, cont, close).value)
    decreases |cont|
  {
    var n := |cont|;
    if Dotted(cont) {
      DottedEnds(cont);
      if n > 3 {
        assert AllWellFormed(cont[1..]);
        ParenWellFormed(open, cont[1..], close);
      }
    }
  }

  lemma AtomWellFormed(nums: Numerics, t: Token, rest: seq<Token>)
    requires IsAtom(t.kind) && Atom(nums, t, rest).Ok?
    ensures WellFormed(Atom(nums, t, rest).value.value)
  {
    if t.kind.Identifier? {
      IdentifierWellFormed(nums, t);
    }
  }

  lemma {:induction false} TermWellFormed(nums: Numerics, ts: seq<Token>)
    requires ParseTerm(nums, ts).Ok?
    ensures WellFormed(ParseTerm(nums, ts).value.value)
    decreases |ts|, 0
  {
    var t := ts[0];
    KindCases(t.kind);
    if IsAtom(t.kind) {
      AtomStep(nums, ts);
      AtomWellFormed(nums, t, ts[1..]);
    } else if OpenerOf(t.kind).Some? {
      OpenerStep(nums, ts);
      BracketedWellFormed(nums, OpenerOf(t.kind).value, t, ts[1..]);
    } else if t.kind == Discard {
      DiscardStep(nums, ts);
      TermWellFormed(nums, ParseTerm(nums, ts[1..]).value.rest);
    } else if QuoteHead(t.kind).Some? {
      QuoteStep(nums, ts);
      WrappedWellFormed(nums, t, QuoteHead(t.kind).value, ts[1..]);
    } else if t.kind == HashStars || t.kind == HashOther {
      HashStep(nums, ts);
      HashWellFormed(nums, t, ts[1..]);
    } else {
      assert false;
    }
  }

  lemma {:induction false} HashWellFormed(nums: Numerics, marker: Token, ts: seq<Token>)
    requires marker.kind == HashStars || marker.kind == HashOther
    requires ParseHash(nums, marker, ts).Ok?
    ensures WellFormed(ParseHash(nums, marker, ts).value.value)
    decreases |ts|, 1
  {
    TermWellFormed(nums, ts);
    var child := ParseTerm(nums, ts).value.value;
    if marker.kind == HashStars {
      StarsWellFormed(marker, child);
    } else {
      TagWellFormed(marker, child);
    }
  }

  lemma WrapWellFormed(marker: Token, head: string, child: Node)
    requires '-' !in head && '.' !in head
    requires child.span.Some? && WellFormed(child)
    ensures WellFormed(Wrap(marker, head, child))
  {
    HeadWellFormed(head);
    var items := [Sym(head), child];
    assert forall i :: 0 <= i < |items| ==> WellFormed(items[i]);
  }

  lemma StarsWellFormed(marker: Token, child: Node)
    requires child.span.Some? && WellFormed(child)
    ensures HashStarsAction(marker, child).Ok? ==> WellFormed(HashStarsAction(marker, child).value)
  {
    WrapWellFormed(marker, "unpack_iterable", child);
    WrapWellFormed(marker, "unpack_mapping", child);
  }

  lemma TagWellFormed(marker: Token, child: Node)
    requires child.span.Some? && WellFormed(child)
    ensures WellFormed(HashOtherAction(marker, child))
  {
    HeadWellFormed("dispatch_tag_macro");
    var items := [Sym("dispatch_tag_macro"), Node(String(TagName(marker), None), None), child];
    assert forall i :: 0 <= i < |items| ==> WellFormed(items[i]);
  }

  lemma {:induction false} WrappedWellFormed(nums: Numerics, marker: Token, head: string, ts: seq<Token>)
    requires '-' !in head && '.' !in head
    requires ParseWrapped(nums, marker, head, ts).Ok?
    ensures WellFormed(ParseWrapped(nums, marker, head, ts).value.value)
    decreases |ts|, 1
  {
    TermWellFormed(nums, ts);
    WrapWellFormed(marker, head, ParseTerm(nums, ts).value.value);
  }

  lemma {:induction false} ContentsWellFormed(nums: Numerics, ts: seq<Token>)
    requires ParseContents(nums, ts).Ok?
    ensures AllWellFormed(ParseContents(nums, ts).value.value)
    decreases |ts|, 1
  {
    if ts != [] && ts[0].kind == Discard {
      var d := ParseTerm(nums, ts[1..]).value;
      if !AtContentsEnd(d.rest) {
        ContentsWellFormed(nums, d.rest);
      }
    } else {
      TermWellFormed(nums, ts);
      var f := ParseTerm(nums, ts).value;
      if !AtContentsEnd(f.rest) {
        ContentsWellFormed(nums, f.rest);
      }
    }
  }

  lemma {:induction false} BracketedWellFormed(nums: Numerics, b: Bracket, open: Token, ts: seq<Token>)
    requires ParseBracketed(nums, b, open, ts).Ok?
    ensures WellFormed(ParseBracketed(nums, b, open, ts).value.value)
    decreases |ts|, 2
  {
    if !(ts != [] && ts[0].kind == CloserOf(b)) {
      ContentsWellFormed(nums, ts);
      var c := ParseContents(nums, ts).value;
      if b == Round {
        ParenWellFormed(open, c.value, c.rest[0]);
      }
    }
  }

  /** Every form of an accepted input is well formed. */
  lemma ParseWellFormed(nums: Numerics, ts: seq<Token>)
    requires Parse(nums, ts).Ok?
    ensures AllWellFormed(Parse(nums, ts).value)
  {
    if ts != [] {
      ContentsWellFormed(nums, ts);
    }
  }
}

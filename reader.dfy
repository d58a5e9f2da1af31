// The reader's grammar (hy/lex/parser.py, the productions main, list_contents,
// discarded_list_contents, term, paren, set, dict, list and string, and the
// error handler), read top-down: each nonterminal is a function from the
// remaining tokens to the form it denotes and the tokens after it.
//
// A closing bracket or the end of input ends a list_contents, which is where
// the grammar's lookahead reduces it; a `#_` in list position drops the next
// term, and the contents end right there if a closing bracket or the end of
// input follows.
module Reader {
  import opened Outcomes
  import opened Syntax
  import opened Classify
  import opened Actions

  /** A value read from the front of the tokens, and the tokens after it. */
  datatype Parsed<T> = Parsed(value: T, rest: seq<Token>)

  predicate IsSuffix(rest: seq<Token>, ts: seq<Token>) {
    |rest| <= |ts| && ts[|ts| - |rest|..] == rest
  }

  /** Whether a list_contents may end before `ts`: at a closing bracket or at the end of input. */
  predicate AtContentsEnd(ts: seq<Token>) {
    ts == [] || IsCloser(ts[0].kind)
  }

  predicate AllSpanned(xs: seq<Node>) {
    forall i :: 0 <= i < |xs| ==> xs[i].span.Some?
  }

  /** Whether a token is a whole term by itself: an identifier or a string. */
  predicate IsAtom(k: Kind) {
    k.Identifier? || k.StringLit? || k.BracketString? || k.PartialString?
  }

  /**
   * identifier and string: the form of the single token `t` (a PARTIAL_STRING
   * asks for more input).
   */
  function AtomNode(nums: Numerics, t: Token): (r: Result<Node, ParseError>)
    requires IsAtom(t.kind)
    ensures r.Ok? ==> r.value.span.Some?
  {
    match t.kind
    case Identifier => IdentifierAction(nums, t)
    case StringLit(content, isBytes) =>
      Ok(SetBoundaries(if isBytes then Bytes(content) else String(content, None), [t]))
    case BracketString(delim, body) => Ok(SetBoundaries(String(body, Some(delim)), [t]))
    case PartialString => Err(PrematureEnd)
  }

  /** An atom followed by the tokens after it. */
  function Atom(nums: Numerics, t: Token, rest: seq<Token>): (r: Result<Parsed<Node>, ParseError>)
    requires IsAtom(t.kind)
    ensures r.Ok? ==> r.value.rest == rest && r.value.value.span.Some?
  {
    var n :- AtomNode(nums, t);
    Ok(Parsed(n, rest))
  }

  /** term: one form from the front of `ts`. */
  function ParseTerm(nums: Numerics, ts: seq<Token>): (r: Result<Parsed<Node>, ParseError>)
    ensures r.Ok? ==> |r.value.rest| < |ts| && r.value.value.span.Some?
    decreases |ts|, 0
  {
    if ts == [] then Err(PrematureEnd)
    else
      var t := ts[0];
      match t.kind
      case RParen | RBracket | RCurly => Err(UnexpectedAt(t))
      case LParen | LBracket | LCurly | HLCurly => ParseBracketed(nums, OpenerOf(t.kind).value, t, ts[1..])
      case Discard =>
        var dropped :- ParseTerm(nums, ts[1..]);
        ParseTerm(nums, dropped.rest)
      case Quote | Quasiquote | Unquote | UnquoteSplice => ParseWrapped(nums, t, QuoteHead(t.kind).value, ts[1..])
      case HashStars | HashOther => ParseHash(nums, t, ts[1..])
      case Identifier | StringLit(_, _) | BracketString(_, _) | PartialString => Atom(nums, t, ts[1..])
  }

  // One step of term, for each kind of first token.

  lemma CloserStep(nums: Numerics, ts: seq<Token>)
    requires ts != [] && IsCloser(ts[0].kind)
    ensures ParseTerm(nums, ts) == Err(UnexpectedAt(ts[0]))
  {
  }

  lemma AtomStep(nums: Numerics, ts: seq<Token>)
    requires ts != [] && IsAtom(ts[0].kind)
    ensures ParseTerm(nums, ts) == Atom(nums, ts[0], ts[1..])
  {
  }

  lemma OpenerStep(nums: Numerics, ts: seq<Token>)
    requires ts != [] && OpenerOf(ts[0].kind).Some?
    ensures ParseTerm(nums, ts) == ParseBracketed(nums, OpenerOf(ts[0].kind).value, ts[0], ts[1..])
  {
  }

  lemma DiscardStep(nums: Numerics, ts: seq<Token>)
    requires ts != [] && ts[0].kind == Discard
    ensures ParseTerm(nums, ts) ==
      var d := ParseTerm(nums, ts[1..]);
      if d.Err? then Err(d.error) else ParseTerm(nums, d.value.rest)
  {
  }

  lemma QuoteStep(nums: Numerics, ts: seq<Token>)
    requires ts != [] && QuoteHead(ts[0].kind).Some?
    ensures ParseTerm(nums, ts) == ParseWrapped(nums, ts[0], QuoteHead(ts[0].kind).value, ts[1..])
  {
  }

  lemma HashStep(nums: Numerics, ts: seq<Token>)
    requires ts != [] && (ts[0].kind == HashStars || ts[0].kind == HashOther)
    ensures ParseTerm(nums, ts) == ParseHash(nums, ts[0], ts[1..])
  {
  }

  /** Every token is a closer, an opener, a `#_`, a quote marker, a hash marker or an atom. */
  lemma KindCases(k: Kind)
    ensures IsCloser(k) || OpenerOf(k).Some? || k == Discard || QuoteHead(k).Some? ||
            k == HashStars || k == HashOther || IsAtom(k)
  {
  }

  /** term_hashstars and hash_other: the marker, then one term. */
  function ParseHash(nums: Numerics, marker: Token, ts: seq<Token>): (r: Result<Parsed<Node>, ParseError>)
    requires marker.kind == HashStars || marker.kind == HashOther
    ensures r.Ok? ==> |r.value.rest| < |ts| && r.value.value.span.Some?
    decreases |ts|, 1
  {
    var child :- ParseTerm(nums, ts);
    if marker.kind == HashStars then
      var n :- HashStarsAction(marker, child.value);
      Ok(Parsed(n, child.rest))
    else Ok(Parsed(HashOtherAction(marker, child.value), child.rest))
  }

  /** term_quote and its three siblings: the marker, then one term, wrapped as `(head term)`. */
  function ParseWrapped(nums: Numerics, marker: Token, head: string, ts: seq<Token>): (r: Result<Parsed<Node>, ParseError>)
    ensures r.Ok? ==> |r.value.rest| < |ts| && r.value.value.span.Some?
    decreases |ts|, 1
  {
    var child :- ParseTerm(nums, ts);
    Ok(Parsed(Wrap(marker, head, child.value), child.rest))
  }

  /** list_contents: the forms up to a closing bracket or the end of input. */
  function ParseContents(nums: Numerics, ts: seq<Token>): (r: Result<Parsed<seq<Node>>, ParseError>)
    ensures r.Ok? ==> |r.value.rest| < |ts| && AllSpanned(r.value.value)
    ensures r.Ok? ==> AtContentsEnd(r.value.rest)
    decreases |ts|, 1
  {
    if ts != [] && ts[0].kind == Discard then
      var dropped :- ParseTerm(nums, ts[1..]);
      if AtContentsEnd(dropped.rest) then Ok(Parsed([], dropped.rest))
      else ParseContents(nums, dropped.rest)
    else
      var first :- ParseTerm(nums, ts);
      if AtContentsEnd(first.rest) then Ok(Parsed([first.value], first.rest))
      else
        var more :- ParseContents(nums, first.rest);
        Ok(Parsed([first.value] + more.value, more.rest))
  }

  /** paren, list, dict and set: `ts` follows the opening bracket `open`. */
  function ParseBracketed(nums: Numerics, b: Bracket, open: Token, ts: seq<Token>): (r: Result<Parsed<Node>, ParseError>)
    ensures r.Ok? ==> |r.value.rest| < |ts| && r.value.value.span.Some?
    decreases |ts|, 2
  {
    if ts != [] && ts[0].kind == CloserOf(b) then
      Ok(Parsed(EmptyBracket(b, open, ts[0]), ts[1..]))
    else
      var cont :- ParseContents(nums, ts);
      var rest := cont.rest;
      if rest == [] then Err(PrematureEnd)
      else if rest[0].kind != CloserOf(b) then Err(UnexpectedAt(rest[0]))
      else
        var n :- BuildBracket(b, open, cont.value, rest[0]);
        Ok(Parsed(n, rest[1..]))
  }

  /** main: all forms of the input, which must end at the end of input. */
  function Parse(nums: Numerics, ts: seq<Token>): (r: Result<seq<Node>, ParseError>)
    ensures r.Ok? ==> AllSpanned(r.value)
  {
    if ts == [] then Ok([])
    else
      var cont :- ParseContents(nums, ts);
      if cont.rest == [] then Ok(cont.value) else Err(UnexpectedAt(cont.rest[0]))
  }
}

// The data the reader works on: the lexer's tokens, the forms it builds
// (the data shape of hy.models), the two error kinds, and the two rules that
// stamp a freshly built form with its source span (hy/lex/parser.py,
// set_boundaries and set_quote_boundaries).
module Syntax {
  import opened Outcomes

  /** Token types of the lexer, with the payload a later stage extracts from them. */
  datatype Kind =
    | Identifier
    | LParen | RParen
    | LBracket | RBracket
    | LCurly | RCurly
    | HLCurly
    | StringLit(content: string, isBytes: bool)   // decoded text, and whether it decoded to bytes
    | PartialString
    | BracketString(delim: string, body: string)  // delimiter and verbatim content
    | Quote | Quasiquote | Unquote | UnquoteSplice
    | Discard
    | HashStars
    | HashOther

  /** A token: its type, its raw text, and the line and column where it starts. */
  datatype Token = Token(kind: Kind, value: string, line: int, col: int)

  /** The token type's name as the lexer declares it, used in error messages. */
  function TypeName(k: Kind): string {
    match k
    case Identifier => "IDENTIFIER"
    case LParen => "LPAREN"
    case RParen => "RPAREN"
    case LBracket => "LBRACKET"
    case RBracket => "RBRACKET"
    case LCurly => "LCURLY"
    case RCurly => "RCURLY"
    case HLCurly => "HLCURLY"
    case StringLit(_, _) => "STRING"
    case PartialString => "PARTIAL_STRING"
    case BracketString(_, _) => "BRACKETSTRING"
    case Quote => "QUOTE"
    case Quasiquote => "QUASIQUOTE"
    case Unquote => "UNQUOTE"
    case UnquoteSplice => "UNQUOTESPLICE"
    case Discard => "DISCARD"
    case HashStars => "HASHSTARS"
    case HashOther => "HASHOTHER"
  }

  predicate IsCloser(k: Kind) {
    k == RParen || k == RBracket || k == RCurly
  }

  datatype Span = Span(startLine: int, startColumn: int, endLine: int, endColumn: int)

  /** A form and the span the reader stamped on it (None for forms it synthesised unstamped). */
  datatype Node = Node(form: Form, span: Option<Span>)

  datatype Form =
    | Symbol(name: string)
    | Keyword(text: string)
    | Integer(value: int)
    | Float(text: string)
    | Complex(text: string)
    | String(text: string, brackets: Option<string>)
    | Bytes(text: string)
    | Expression(items: seq<Node>)
    | List(items: seq<Node>)
    | Dict(items: seq<Node>)
    | Set(items: seq<Node>)
    | Cons(car: Node, cdr: Node)

  /** A symbol built by the reader itself, without a span. */
  function Sym(name: string): Node {
    Node(Symbol(name), None)
  }

  /** The bare symbol `.` (a String `"."` or any other form is not a dot). */
  predicate IsDot(n: Node) {
    n.form == Symbol(".")
  }

  /** Why input is malformed; each reason has the source's message. */
  datatype Reason =
    | Unexpected(tokenType: string)
    | DottedList
    | TooManyStars
    | AttributeOnLiteral

  function Message(r: Reason): string {
    match r
    case Unexpected(t) => "Ran into a " + t + " where it wasn't expected."
    case DottedList => "Malformed dotted list"
    case TooManyStars =>
      "Too many stars in `#*` construct (if you want to unpack a symbol " +
      "beginning with a star, separate it with whitespace)"
    case AttributeOnLiteral =>
      "Cannot access attribute on anything other than a name (in " +
      "order to get attributes of expressions, use " +
      "`(. <expression> <attr>)` or `(.<attr> <expression>)`)"
  }

  /** Malformed input at a line and column, or input that ended before the form did. */
  datatype ParseError =
    | Malformed(reason: Reason, line: int, col: int)
    | PrematureEnd

  /** The error for a token no production can continue with. */
  function UnexpectedAt(t: Token): ParseError {
    Malformed(Unexpected(TypeName(t.kind)), t.line, t.col)
  }

  /**
   * set_boundaries: `p` are the production's first and last tokens (one token
   * when the production has a single symbol). The span starts at the first
   * token; it ends at the last token's start, or, for a single token, at its
   * start column plus the length of its text. Either way that is where the
   * last token ends for a span, as `TokenEnd` puts it, for the productions that
   * use it: a single identifier or string, or brackets ending in a closing one.
   */
  function SetBoundaries(f: Form, p: seq<Token>): (r: Node)
    requires |p| > 0
    ensures r.form == f && r.span.Some?
    ensures (r.span.value.startLine, r.span.value.startColumn) == (p[0].line, p[0].col)
    ensures (|p| == 1 && !IsCloser(p[0].kind)) || (|p| > 1 && IsCloser(p[|p| - 1].kind)) ==>
      (r.span.value.endLine, r.span.value.endColumn) == TokenEnd(p[|p| - 1])
    ensures |p| > 1 ==> (r.span.value.endLine, r.span.value.endColumn) == (p[|p| - 1].line, p[|p| - 1].col)
  {
    var first, last := p[0], p[|p| - 1];
    if |p| == 1 then Node(f, Some(Span(first.line, first.col, first.line, first.col + |first.value|)))
    else Node(f, Some(Span(first.line, first.col, last.line, last.col)))
  }

  /**
   * set_quote_boundaries: the span starts at the marker token and ends where
   * the wrapped child's span ends.
   */
  function SetQuoteBoundaries(f: Form, marker: Token, child: Node): (r: Node)
    requires child.span.Some?
    ensures r.form == f && r.span.Some?
    ensures SpanStart(r.span.value) == (marker.line, marker.col) && SpanEnd(r.span.value) == SpanEnd(child.span.value)
  {
    Node(f, Some(Span(marker.line, marker.col, child.span.value.endLine, child.span.value.endColumn)))
  }

  /** Where a token's contribution to a span ends: a closing bracket's start, otherwise the end of its text. */
  function TokenEnd(t: Token): (int, int) {
    if IsCloser(t.kind) then (t.line, t.col) else (t.line, t.col + |t.value|)
  }

  function SpanStart(s: Span): (int, int) { (s.startLine, s.startColumn) }

  function SpanEnd(s: Span): (int, int) { (s.endLine, s.endColumn) }
}

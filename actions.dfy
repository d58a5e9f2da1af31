// The semantic actions of the reader's productions (hy/lex/parser.py): the
// dotted-list check, the paren action that turns a dotted list into nested
// cons cells, the bracketed collections, and the reader-macro wrappers.
module Actions {
  import opened Outcomes
  import opened Syntax

  // ---- spurious dots ----

  /** The position of the first bare `.` in `s`, if there is one. */
  function FirstDot(s: seq<Node>): (r: Option<nat>)
    ensures r.Some? ==> r.value < |s| && IsDot(s[r.value]) && forall j :: 0 <= j < r.value ==> !IsDot(s[j])
    ensures r.None? <==> forall j :: 0 <= j < |s| ==> !IsDot(s[j])
  {
    if s == [] then None
    else if IsDot(s[0]) then Some(0)
    else match FirstDot(s[1..])
      case None => None
      case Some(i) => Some(i + 1)
  }

  function Flatten(lists: seq<seq<Node>>): seq<Node> {
    if lists == [] then [] else Flatten(lists[..|lists| - 1]) + lists[|lists| - 1]
  }

  /** Every bare `.` carries a span (the reader stamps every form it puts in a list). */
  predicate DotsSpanned(s: seq<Node>) {
    forall i :: 0 <= i < |s| && IsDot(s[i]) ==> s[i].span.Some?
  }

  predicate AllDotsSpanned(lists: seq<seq<Node>>) {
    forall k :: 0 <= k < |lists| ==> DotsSpanned(lists[k])
  }

  lemma {:induction false} FlattenSpanned(lists: seq<seq<Node>>)
    requires AllDotsSpanned(lists)
    ensures DotsSpanned(Flatten(lists))
  {
    if lists != [] {
      FlattenSpanned(lists[..|lists| - 1]);
    }
  }

  function DotError(dot: Node): ParseError
    requires dot.span.Some?
  {
    Malformed(DottedList, dot.span.value.startLine, dot.span.value.startColumn)
  }

  /**
   * reject_spurious_dots, as a value: the malformed-dotted-list error at the
   * first bare `.` found going through the lists in order, or None.
   */
  function SpuriousDots(lists: seq<seq<Node>>): (r: Option<ParseError>)
    requires AllDotsSpanned(lists)
    ensures r.None? <==> forall k :: 0 <= k < |Flatten(lists)| ==> !IsDot(Flatten(lists)[k])
    ensures r.Some? ==>
              exists k :: 0 <= k < |Flatten(lists)| && IsDot(Flatten(lists)[k]) &&
                          (forall j :: 0 <= j < k ==> !IsDot(Flatten(lists)[j])) &&
                          Flatten(lists)[k].span.Some? && r.value == DotError(Flatten(lists)[k])
  {
    FlattenSpanned(lists);
    var all := Flatten(lists);
    match FirstDot(all)
    case None => None
    case Some(i) => Some(DotError(all[i]))
  }

  lemma {:induction false} FlattenPrefix(lists: seq<seq<Node>>, n: nat)
    requires n < |lists|
    ensures Flatten(lists[..n + 1]) == Flatten(lists[..n]) + lists[n]
    ensures Flatten(lists[..n + 1]) <= Flatten(lists)
    decreases |lists| - n
  {
    assert lists[..n + 1][..n] == lists[..n];
    if n + 1 < |lists| {
      FlattenPrefix(lists, n + 1);
    } else {
      assert lists[..n + 1] == lists;
    }
  }

  /**
   * reject_spurious_dots: walk the lists in order and stop at the first bare
   * `.`, reporting it as a malformed dotted list at that symbol's position.
   */
  method RejectSpuriousDots(lists: seq<seq<Node>>) returns (err: Option<ParseError>)
    requires AllDotsSpanned(lists)
    ensures err == SpuriousDots(lists)
  {
    FlattenSpanned(lists);
    ghost var all := Flatten(lists);
    if |lists| > 0 {
      FlattenPrefix(lists, 0);
    }
    for i := 0 to |lists|
      invariant forall k :: 0 <= k < |Flatten(lists[..i])| ==> !IsDot(Flatten(lists[..i])[k])
      invariant i < |lists| ==> Flatten(lists[..i]) + lists[i] <= all
      invariant i == |lists| ==> Flatten(lists[..i]) == all
    {
      ghost var done := Flatten(lists[..i]);
      FlattenPrefix(lists, i);
      for j := 0 to |lists[i]|
        invariant forall k :: 0 <= k < j ==> !IsDot(lists[i][k])
      {
        var item := lists[i][j];
        if IsDot(item) {
          ghost var at := |done| + j;
          assert all[at] == item;
          assert forall k :: 0 <= k < at ==> !IsDot(all[k]) by {
            forall k | 0 <= k < at ensures !IsDot(all[k]) {
              if k < |done| { assert all[k] == done[k]; } else { assert all[k] == lists[i][k - |done|]; }
            }
          }
          err := Some(DotError(item));
          return;
        }
      }
      assert forall k :: 0 <= k < |lists[i]| ==> !IsDot(lists[i][k]);
      if i + 1 < |lists| {
        FlattenPrefix(lists, i + 1);
      } else {
        assert lists[..i + 1] == lists;
      }
    }
    assert lists[..|lists|] == lists;
    err := None;
  }

  // ---- the paren action ----

  /** Every cell of one dotted list gets the span of the enclosing parentheses. */
  function PairSpan(open: Token, close: Token): Span {
    Span(open.line, open.col, close.line, close.col)
  }

  /** `(x1 x2 ... xn . z)` as nested cons cells, every cell stamped with `sp`. */
  function ConsChain(xs: seq<Node>, z: Node, sp: Span): Node
    requires |xs| > 0
  {
    if |xs| == 1 then Node(Cons(xs[0], z), Some(sp))
    else Node(Cons(xs[0], ConsChain(xs[1..], z, sp)), Some(sp))
  }

  /** Whether the contents of a paren end in `. z` with at least two more items before. */
  predicate Dotted(cont: seq<Node>) {
    |cont| >= 3 && IsDot(cont[|cont| - 2])
  }

  /**
   * paren: a dotted list becomes nested cons cells, after rejecting a bare `.`
   * anywhere but the separator; otherwise an expression, after rejecting a
   * bare `.` anywhere but the first item.
   */
  function Paren(open: Token, cont: seq<Node>, close: Token): (r: Result<Node, ParseError>)
    requires DotsSpanned(cont)
    ensures r.Ok? ==> r.value.span == Some(PairSpan(open, close))
    decreases |cont|
  {
    var n := |cont|;
    if Dotted(cont) then
      match SpuriousDots([cont[..n - 2], cont[n - 1..]])
      case Some(e) => Err(e)
      case None =>
        if n == 3 then Ok(SetBoundaries(Cons(cont[0], cont[2]), [open, close]))
        else
          var inner :- Paren(open, cont[1..], close);
          Ok(SetBoundaries(Cons(cont[0], inner), [open, close]))
    else
      var rest := if n == 0 then [] else cont[1..];
      match SpuriousDots([rest])
      case Some(e) => Err(e)
      case None => Ok(SetBoundaries(Expression(cont), [open, close]))
  }

  lemma FlattenPair(a: seq<Node>, b: seq<Node>)
    ensures Flatten([a, b]) == a + b
    ensures Flatten([a]) == a
  {
    assert [a][..0] == [];
    assert Flatten([a]) == Flatten([]) + a;
    assert [a, b][..1] == [a];
    assert Flatten([a, b]) == Flatten([a]) + b;
  }

  /**
   * A dotted list `(x1 ... xn . z)` is rejected at the first bare `.` among
   * x1 ... xn and z; otherwise it is exactly n nested cons cells holding x1 ...
   * xn and ending in z, each with the span of the parentheses.
   */
  lemma {:induction false} ParenDotted(open: Token, cont: seq<Node>, close: Token)
    requires DotsSpanned(cont) && Dotted(cont)
    ensures var n := |cont|;
      match FirstDot(cont[..n - 2] + [cont[n - 1]])
      case Some(i) =>
        Paren(open, cont, close) == Err(DotError((cont[..n - 2] + [cont[n - 1]])[i]))
      case None =>
        Paren(open, cont, close) == Ok(ConsChain(cont[..n - 2], cont[n - 1], PairSpan(open, close)))
    decreases |cont|
  {
    var n := |cont|;
    FlattenPair(cont[..n - 2], cont[n - 1..]);
    assert cont[n - 1..] == [cont[n - 1]];
    var kept := cont[..n - 2] + [cont[n - 1]];
    if FirstDot(kept).None? && n > 3 {
      var tail := cont[1..];
      assert Dotted(tail) && |tail| == n - 1;
      assert tail[..n - 3] + [tail[n - 2]] == kept[1..];
      ParenDotted(open, tail, close);
      assert cont[..n - 2][1..] == tail[..n - 3];
    }
  }

  /**
   * A list that is not dotted is an expression of the same items, unless some
   * item after the first is a bare `.`, which is then reported.
   */
  lemma ParenPlain(open: Token, cont: seq<Node>, close: Token)
    requires DotsSpanned(cont) && !Dotted(cont)
    ensures var rest := if |cont| == 0 then [] else cont[1..];
      match FirstDot(rest)
      case Some(i) => Paren(open, cont, close) == Err(DotError(rest[i]))
      case None => Paren(open, cont, close) == Ok(SetBoundaries(Expression(cont), [open, close]))
  {
    var rest := if |cont| == 0 then [] else cont[1..];
    FlattenPair(rest, []);
  }

  /** The k-th cdr of a chain of cons cells, if the chain is that long. */
  function CdrAt(n: Node, k: nat): Option<Node> {
    if k == 0 then Some(n)
    else if n.form.Cons? then CdrAt(n.form.cdr, k - 1)
    else None
  }

  /** A chain built from n items has exactly n cells: the k-th holds the k-th item, the n-th cdr is the tail. */
  lemma {:induction false} ConsChainShape(xs: seq<Node>, z: Node, sp: Span)
    requires |xs| > 0
    ensures CdrAt(ConsChain(xs, z, sp), |xs|) == Some(z)
    ensures forall k :: 0 <= k < |xs| ==>
      CdrAt(ConsChain(xs, z, sp), k).Some? &&
      CdrAt(ConsChain(xs, z, sp), k).value.form.Cons? &&
      CdrAt(ConsChain(xs, z, sp), k).value.form.car == xs[k] &&
      CdrAt(ConsChain(xs, z, sp), k).value.span == Some(sp)
  {
    if |xs| > 1 {
      ConsChainShape(xs[1..], z, sp);
      var c := ConsChain(xs, z, sp);
      forall k | 1 <= k <= |xs| ensures CdrAt(c, k) == CdrAt(ConsChain(xs[1..], z, sp), k - 1) { }
    }
  }

  // ---- bracketed collections ----

  datatype Bracket = Round | Square | Curly | HashCurly

  function OpenerOf(k: Kind): Option<Bracket> {
    match k
    case LParen => Some(Round)
    case LBracket => Some(Square)
    case LCurly => Some(Curly)
    case HLCurly => Some(HashCurly)
    case _ => None
  }

  function CloserOf(b: Bracket): Kind {
    match b
    case Round => RParen
    case Square => RBracket
    case Curly => RCurly
    case HashCurly => RCurly
  }

  /** The form an empty pair of brackets denotes: `()`, `[]`, `{}`, `#{}`. */
  function EmptyForm(b: Bracket): Form {
    match b
    case Round => Expression([])
    case Square => List([])
    case Curly => Dict([])
    case HashCurly => Set([])
  }

  /** empty_paren, t_empty_list, empty_dict, empty_set. */
  function EmptyBracket(b: Bracket, open: Token, close: Token): Node {
    SetBoundaries(EmptyForm(b), [open, close])
  }

  /** paren, t_list, t_dict, t_set on non-empty contents. */
  function BuildBracket(b: Bracket, open: Token, cont: seq<Node>, close: Token): (r: Result<Node, ParseError>)
    requires DotsSpanned(cont)
    ensures r.Ok? ==> r.value.span == Some(PairSpan(open, close))
    ensures b == Square ==> r.Ok? && r.value.form == List(cont)
    ensures b == Curly ==> r.Ok? && r.value.form == Dict(cont)
    ensures b == HashCurly ==> r.Ok? && r.value.form == Set(cont)
  {
    match b
    case Round => Paren(open, cont, close)
    case Square => Ok(SetBoundaries(List(cont), [open, close]))
    case Curly => Ok(SetBoundaries(Dict(cont), [open, close]))
    case HashCurly => Ok(SetBoundaries(Set(cont), [open, close]))
  }

  // ---- reader-macro wrappers ----

  /** The head symbol QUOTE, QUASIQUOTE, UNQUOTE and UNQUOTESPLICE wrap their term with. */
  function QuoteHead(k: Kind): (r: Option<string>)
    ensures r.Some? ==> '-' !in r.value && '.' !in r.value
  {
    match k
    case Quote => Some("quote")
    case Quasiquote => Some("quasiquote")
    case Unquote => Some("unquote")
    case UnquoteSplice => Some("unquote_splice")
    case _ => None
  }

  /** `(head child)`, spanned from the marker to the end of the child. */
  function Wrap(marker: Token, head: string, child: Node): Node
    requires child.span.Some?
  {
    SetQuoteBoundaries(Expression([Sym(head), child]), marker, child)
  }

  /** The number of stars of a `#*` marker: its text after the leading `#`. */
  function StarCount(marker: Token): nat {
    if |marker.value| == 0 then 0 else |marker.value| - 1
  }

  /** term_hashstars: one star unpacks an iterable, two a mapping, any other count is malformed. */
  function HashStarsAction(marker: Token, child: Node): (r: Result<Node, ParseError>)
    requires child.span.Some?
    ensures r.Ok? <==> StarCount(marker) == 1 || StarCount(marker) == 2
    ensures r.Err? ==> r.error == Malformed(TooManyStars, marker.line, marker.col)
    ensures r.Ok? ==> r.value.span.Some? && SpanStart(r.value.span.value) == (marker.line, marker.col)
    ensures r.Ok? ==> r.value.span.Some? && SpanEnd(r.value.span.value) == SpanEnd(child.span.value)
  {
    var n := StarCount(marker);
    if n == 1 then Ok(Wrap(marker, "unpack_iterable", child))
    else if n == 2 then Ok(Wrap(marker, "unpack_mapping", child))
    else Err(Malformed(TooManyStars, marker.line, marker.col))
  }

  /** The tag of a `#tag` marker: its text after the leading `#`, not mangled. */
  function TagName(marker: Token): string {
    if |marker.value| == 0 then "" else marker.value[1..]
  }

  /** hash_other: `(dispatch_tag_macro "tag" child)`. */
  function HashOtherAction(marker: Token, child: Node): (r: Node)
    requires child.span.Some?
    ensures r.form.Expression? && |r.form.items| == 3 && r.form.items[2] == child
    ensures r.span.Some? && SpanStart(r.span.value) == (marker.line, marker.col) &&
      SpanEnd(r.span.value) == SpanEnd(child.span.value)
  {
    SetQuoteBoundaries(
      Expression([Sym("dispatch_tag_macro"), Node(String(TagName(marker), None), None), child]),
      marker, child)
  }
}

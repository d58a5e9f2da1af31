// Where the reader's errors come from (hy/lex/parser.py, error_handler and the
// raising actions): a token the grammar cannot continue with is always a
// closing bracket of the input, reported with its own type and position; the
// paren action only ever fails on a bare `.`; and running out of tokens, or a
// PARTIAL_STRING, is the premature end of input.
module ErrorProofs {
  import opened Outcomes
  import opened Syntax
  import opened Classify
  import opened Actions
  import opened Reader
  import opened ReaderProofs

  /** An unexpected-token error names a closing bracket of `ts`, by type, line and column. */
  predicate BlamesCloser(e: ParseError, ts: seq<Token>) {
    e.Malformed? && e.reason.Unexpected? ==>
      exists i :: 0 <= i < |ts| && IsCloser(ts[i].kind) && e == UnexpectedAt(ts[i])
  }

  lemma BlameInSuffix(e: ParseError, rest: seq<Token>, ts: seq<Token>)
    requires IsSuffix(rest, ts) && BlamesCloser(e, rest)
    ensures BlamesCloser(e, ts)
  {
    if e.Malformed? && e.reason.Unexpected? {
      var i :| 0 <= i < |rest| && IsCloser(rest[i].kind) && e == UnexpectedAt(rest[i]);
      assert ts[|ts| - |rest| + i] == rest[i];
    }
  }

  /** The paren action fails only with a malformed dotted list. */
  lemma {:induction false} ParenFailsOnDots(open: Token, cont: seq<Node>, close: Token)
    requires DotsSpanned(cont)
    requires Paren(open, cont, close).Err?
    ensures Paren(open, cont, close).error.Malformed?
    ensures Paren(open, cont, close).error.reason == DottedList
    decreases |cont|
  {
    var n := |cont|;
    if Dotted(cont) && SpuriousDots([cont[..n - 2], cont[n - 1..]]).None? && n > 3 {
      ParenFailsOnDots(open, cont[1..], close);
    }
  }

  /** An identifier or a string fails only on an attribute or an unterminated string. */
  lemma AtomBlame(nums: Numerics, t: Token, rest: seq<Token>)
    requires IsAtom(t.kind) && Atom(nums, t, rest).Err?
    ensures !Atom(nums, t, rest).error.Malformed? || Atom(nums, t, rest).error.reason == AttributeOnLiteral
  {
    if t.kind.Identifier? {
      IdentifierError(nums, t);
    }
  }

  lemma {:induction false} TermBlame(nums: Numerics, ts: seq<Token>)
    requires ParseTerm(nums, ts).Err?
    ensures BlamesCloser(ParseTerm(nums, ts).error, ts)
    decreases |ts|, 1
  {
    if ts != [] {
      var t := ts[0];
      var e := ParseTerm(nums, ts).error;
      KindCases(t.kind);
      if IsCloser(t.kind) {
        CloserStep(nums, ts);
      } else if IsAtom(t.kind) {
        AtomStep(nums, ts);
        AtomBlame(nums, t, ts[1..]);
      } else if OpenerOf(t.kind).Some? {
        OpenerStep(nums, ts);
        BracketedBlame(nums, OpenerOf(t.kind).value, t, ts[1..]);
        BlameInSuffix(e, ts[1..], ts);
      } else if t.kind == Discard {
        DiscardStep(nums, ts);
        var d := ParseTerm(nums, ts[1..]);
        if d.Err? {
          TermBlame(nums, ts[1..]);
          BlameInSuffix(e, ts[1..], ts);
        } else {
          TermBlame(nums, d.value.rest);
          TermSuffix(nums, ts[1..]);
          SuffixOfSuffix(d.value.rest, ts[1..], ts);
          BlameInSuffix(e, d.value.rest, ts);
        }
      } else if QuoteHead(t.kind).Some? {
        QuoteStep(nums, ts);
        WrappedBlame(nums, t, QuoteHead(t.kind).value, ts[1..]);
        BlameInSuffix(e, ts[1..], ts);
      } else {
        HashStep(nums, ts);
        HashBlame(nums, t, ts[1..]);
        BlameInSuffix(e, ts[1..], ts);
      }
    }
  }

  lemma {:induction false} HashBlame(nums: Numerics, marker: Token, ts: seq<Token>)
    requires marker.kind == HashStars || marker.kind == HashOther
    requires ParseHash(nums, marker, ts).Err?
    ensures BlamesCloser(ParseHash(nums, marker, ts).error, ts)
    decreases |ts|, 2
  {
    if ParseTerm(nums, ts).Err? {
      TermBlame(nums, ts);
    }
  }

  lemma {:induction false} WrappedBlame(nums: Numerics, marker: Token, head: string, ts: seq<Token>)
    requires ParseWrapped(nums, marker, head, ts).Err?
    ensures BlamesCloser(ParseWrapped(nums, marker, head, ts).error, ts)
    decreases |ts|, 2
  {
    TermBlame(nums, ts);
  }

  lemma {:induction false} ContentsBlame(nums: Numerics, ts: seq<Token>)
    requires ParseContents(nums, ts).Err?
    ensures BlamesCloser(ParseContents(nums, ts).error, ts)
    decreases |ts|, 2
  {
    var e := ParseContents(nums, ts).error;
    if ts != [] && ts[0].kind == Discard {
      var d := ParseTerm(nums, ts[1..]);
      if d.Err? {
        TermBlame(nums, ts[1..]);
        BlameInSuffix(e, ts[1..], ts);
      } else {
        ContentsBlame(nums, d.value.rest);
        TermSuffix(nums, ts[1..]);
        SuffixOfSuffix(d.value.rest, ts[1..], ts);
        BlameInSuffix(e, d.value.rest, ts);
      }
    } else {
      var f := ParseTerm(nums, ts);
      if f.Err? {
        TermBlame(nums, ts);
      } else {
        ContentsBlame(nums, f.value.rest);
        TermSuffix(nums, ts);
        BlameInSuffix(e, f.value.rest, ts);
      }
    }
  }

  lemma {:induction false} BracketedBlame(nums: Numerics, b: Bracket, open: Token, ts: seq<Token>)
    requires ParseBracketed(nums, b, open, ts).Err?
    ensures BlamesCloser(ParseBracketed(nums, b, open, ts).error, ts)
    decreases |ts|, 3
  {
    var e := ParseBracketed(nums, b, open, ts).error;
    var c := ParseContents(nums, ts);
    if c.Err? {
      ContentsBlame(nums, ts);
    } else if c.value.rest != [] && c.value.rest[0].kind != CloserOf(b) {
      ContentsSuffix(nums, ts);
      assert c.value.rest[0] == ts[|ts| - |c.value.rest|];
    } else if c.value.rest != [] && b == Round {
      ParenFailsOnDots(open, c.value.value, c.value.rest[0]);
    }
  }

  /**
   * error_handler and the raising actions: when the reader reports a token it
   * ran into where it was not expected, that token is a closing bracket of the
   * input and the error carries its type name and position. Every other token
   * starts a form, so it is never the unexpected one; other malformed input is
   * a dotted list, a star count or an attribute on a literal.
   */
  lemma ParseBlame(nums: Numerics, ts: seq<Token>)
    requires Parse(nums, ts).Err?
    ensures BlamesCloser(Parse(nums, ts).error, ts)
  {
    var c := ParseContents(nums, ts);
    if c.Err? {
      ContentsBlame(nums, ts);
    } else {
      ContentsSuffix(nums, ts);
      assert c.value.rest[0] == ts[|ts| - |c.value.rest|];
    }
  }

  /**
   * Premature end of input: a form cut off before it ends, or a string the
   * lexer left unterminated, asks for more input rather than being malformed.
   */
  lemma CutShort(nums: Numerics, open: Token, ts: seq<Token>, s: Token)
    requires OpenerOf(open.kind).Some? && s.kind == PartialString
    ensures ParseTerm(nums, []) == Err(PrematureEnd)
    ensures ParseTerm(nums, [open]) == Err(PrematureEnd)
    ensures ParseTerm(nums, [s] + ts) == Err(PrematureEnd)
    ensures Parse(nums, [open]) == Err(PrematureEnd)
  {
    assert ([s] + ts)[0] == s;
  }

  // ---- input cut short ----

  /**
   * What a read of the first `k` tokens of `ts` gives, when the read of all of
   * `ts` gave `p`: a premature end when the cut falls inside the tokens `p`
   * consumed, and otherwise the same value followed by the tokens up to the cut.
   */
  function CutRead<T>(p: Parsed<T>, ts: seq<Token>, k: nat): Result<Parsed<T>, ParseError>
    requires |p.rest| <= |ts| && k <= |ts|
  {
    var n := |ts| - |p.rest|;
    if k < n then Err(PrematureEnd) else Ok(Parsed(p.value, ts[n..k]))
  }

  /**
   * The same for list contents, which may also end at the cut when it falls
   * inside them.
   */
  predicate ContentsCutRead(p: Parsed<seq<Node>>, ts: seq<Token>, k: nat, r: Result<Parsed<seq<Node>>, ParseError>)
    requires |p.rest| <= |ts| && k <= |ts|
  {
    var n := |ts| - |p.rest|;
    if k < n then r == Err(PrematureEnd) || (r.Ok? && r.value.rest == [])
    else r == Ok(Parsed(p.value, ts[n..k]))
  }

  /** An atom's form does not depend on the tokens after it. */
  lemma AtomRest(nums: Numerics, t: Token, rest: seq<Token>, rest2: seq<Token>)
    requires IsAtom(t.kind) && Atom(nums, t, rest).Ok?
    ensures Atom(nums, t, rest2) == Ok(Parsed(Atom(nums, t, rest).value.value, rest2))
  {
  }

  lemma {:induction false} TermCut(nums: Numerics, ts: seq<Token>, k: nat)
    requires ParseTerm(nums, ts).Ok? && k <= |ts|
    ensures ParseTerm(nums, ts[..k]) == CutRead(ParseTerm(nums, ts).value, ts, k)
    decreases |ts|, 2
  {
    if k == 0 {
      assert ts[..k] == [];
    } else {
      var t := ts[0];
      var cut := ts[..k];
      assert cut[0] == t && cut[1..] == ts[1..][..k - 1];
      KindCases(t.kind);
      if IsAtom(t.kind) {
        AtomStep(nums, ts);
        AtomStep(nums, cut);
        AtomRest(nums, t, ts[1..], cut[1..]);
        assert cut[1..] == ts[1..k];
      } else if OpenerOf(t.kind).Some? {
        OpenerStep(nums, ts);
        OpenerStep(nums, cut);
        BracketedCut(nums, OpenerOf(t.kind).value, t, ts[1..], k - 1);
        ShiftCut(ParseTerm(nums, ts).value, ts, 1, k);
      } else if t.kind == Discard {
        DiscardCut(nums, ts, k);
      } else if QuoteHead(t.kind).Some? {
        QuoteStep(nums, ts);
        QuoteStep(nums, cut);
        WrappedCut(nums, t, QuoteHead(t.kind).value, ts[1..], k - 1);
        ShiftCut(ParseTerm(nums, ts).value, ts, 1, k);
      } else if t.kind == HashStars || t.kind == HashOther {
        HashStep(nums, ts);
        HashStep(nums, cut);
        HashCut(nums, t, ts[1..], k - 1);
        ShiftCut(ParseTerm(nums, ts).value, ts, 1, k);
      } else {
        assert false;
      }
    }
  }

  /** A cut of `ts[m..]` is the cut of `ts` further by `m`. */
  lemma ShiftCut<T>(p: Parsed<T>, ts: seq<Token>, m: nat, k: nat)
    requires |p.rest| < |ts| - m && m <= k <= |ts|
    ensures CutRead(p, ts[m..], k - m) == CutRead(p, ts, k)
  {
    var n := |ts| - |p.rest|;
    if k >= n {
      assert ts[m..][n - m..k - m] == ts[n..k];
    }
  }

  /** `#_ x y` in term position reads as the term after `x`. */
  lemma DiscardSecond(nums: Numerics, ts: seq<Token>)
    requires ts != [] && ts[0].kind == Discard && ParseTerm(nums, ts[1..]).Ok?
    ensures ParseTerm(nums, ts) == ParseTerm(nums, ParseTerm(nums, ts[1..]).value.rest)
  {
    DiscardStep(nums, ts);
  }

  /** `#_ x`, in term or list position, fails as `x` does. */
  lemma DiscardFails(nums: Numerics, ts: seq<Token>)
    requires ts != [] && ts[0].kind == Discard && ParseTerm(nums, ts[1..]).Err?
    ensures ParseTerm(nums, ts) == Err(ParseTerm(nums, ts[1..]).error)
    ensures ParseContents(nums, ts) == Err(ParseTerm(nums, ts[1..]).error)
  {
    DiscardStep(nums, ts);
    ContentsStep(nums, ts);
  }

  /** `#_ x y` in term position, cut after `k` tokens. */
  lemma {:induction false} DiscardCut(nums: Numerics, ts: seq<Token>, k: nat)
    requires ts != [] && ts[0].kind == Discard && ParseTerm(nums, ts).Ok? && 0 < k <= |ts|
    ensures ParseTerm(nums, ts[..k]) == CutRead(ParseTerm(nums, ts).value, ts, k)
    decreases |ts|, 1
  {
    if ParseTerm(nums, ts[1..]).Err? {
      DiscardFails(nums, ts);
      assert false;
    } else if k - 1 < |ts| - 1 - |ParseTerm(nums, ts[1..]).value.rest| {
      DiscardCutShort(nums, ts, k);
    } else {
      DiscardCutPast(nums, ts, k);
    }
  }

  /** The same, when the cut falls inside the dropped term `x`. */
  lemma {:induction false} DiscardCutShort(nums: Numerics, ts: seq<Token>, k: nat)
    requires ts != [] && ts[0].kind == Discard && ParseTerm(nums, ts[1..]).Ok? && 0 < k <= |ts|
    requires k - 1 < |ts| - 1 - |ParseTerm(nums, ts[1..]).value.rest|
    ensures ParseTerm(nums, ts[..k]) == Err(PrematureEnd)
    decreases |ts|, 0
  {
    var cut := ts[..k];
    assert cut[0] == ts[0] && cut[1..] == ts[1..][..k - 1];
    TermCut(nums, ts[1..], k - 1);
    DiscardFails(nums, cut);
  }

  /** The same, when the cut falls after the dropped term `x`. */
  lemma {:induction false} DiscardCutPast(nums: Numerics, ts: seq<Token>, k: nat)
    requires ts != [] && ts[0].kind == Discard && ParseTerm(nums, ts).Ok? && ParseTerm(nums, ts[1..]).Ok? && 0 < k <= |ts|
    requires k - 1 >= |ts| - 1 - |ParseTerm(nums, ts[1..]).value.rest|
    ensures ParseTerm(nums, ts[..k]) == CutRead(ParseTerm(nums, ts).value, ts, k)
    decreases |ts|, 0
  {
    TermCut(nums, ts[1..], k - 1);
    DiscardJump(nums, ts, k);
    SkipCut(nums, ts, k, |ts| - |ParseTerm(nums, ts[1..]).value.rest|);
  }

  /**
   * A read of `ts`, and of its cut after `k` tokens, that both read as what
   * starts at `m` (the term after a dropped one) give the cut read of `ts`.
   */
  lemma {:induction false} SkipCut(nums: Numerics, ts: seq<Token>, k: nat, m: nat)
    requires 0 < m <= k <= |ts| && ParseTerm(nums, ts[m..]).Ok?
    requires ParseTerm(nums, ts) == ParseTerm(nums, ts[m..]) && ParseTerm(nums, ts[..k]) == ParseTerm(nums, ts[m..k])
    ensures ParseTerm(nums, ts[..k]) == CutRead(ParseTerm(nums, ts).value, ts, k)
    decreases |ts| - 1, 3
  {
    var p := ParseTerm(nums, ts).value;
    TermCut(nums, ts[m..], k - m);
    assert ts[m..][..k - m] == ts[m..k];
    ShiftCut(p, ts, m, k);
  }

  /** Both `#_ x y` and its cut past `x` read as what follows `x`. */
  lemma DiscardJump(nums: Numerics, ts: seq<Token>, k: nat)
    requires ts != [] && ts[0].kind == Discard && ParseTerm(nums, ts[1..]).Ok? && 0 < k <= |ts|
    requires k - 1 >= |ts| - 1 - |ParseTerm(nums, ts[1..]).value.rest|
    requires ParseTerm(nums, ts[1..][..k - 1]) == CutRead(ParseTerm(nums, ts[1..]).value, ts[1..], k - 1)
    ensures var m := |ts| - |ParseTerm(nums, ts[1..]).value.rest|;
      ParseTerm(nums, ts) == ParseTerm(nums, ts[m..]) &&
      ParseTerm(nums, ts[..k]) == ParseTerm(nums, ts[m..k])
  {
    DroppedCut(nums, ts, k);
    DiscardSecond(nums, ts);
    assert ts[..k] != [] && ts[..k][0] == ts[0];
    DiscardSecond(nums, ts[..k]);
  }

  /** The term `x` dropped by `#_ x`, read from the cut: the same form, followed by the tokens up to the cut. */
  lemma DroppedCut(nums: Numerics, ts: seq<Token>, k: nat)
    requires ts != [] && ParseTerm(nums, ts[1..]).Ok? && 0 < k <= |ts|
    requires k - 1 >= |ts| - 1 - |ParseTerm(nums, ts[1..]).value.rest|
    requires ParseTerm(nums, ts[1..][..k - 1]) == CutRead(ParseTerm(nums, ts[1..]).value, ts[1..], k - 1)
    ensures var d := ParseTerm(nums, ts[1..]).value; var dn := |ts| - 1 - |d.rest|;
      d.rest == ts[1 + dn..] && ts[..k][1..] == ts[1..][..k - 1] &&
      ParseTerm(nums, ts[..k][1..]) == Ok(Parsed(d.value, ts[1 + dn..k]))
  {
    var d := ParseTerm(nums, ts[1..]).value;
    var dn := |ts| - 1 - |d.rest|;
    assert ts[..k][1..] == ts[1..][..k - 1];
    TermSuffix(nums, ts[1..]);
    assert ts[1..][dn..] == ts[1 + dn..];
    assert ts[1..][dn..k - 1] == ts[1 + dn..k];
  }

  lemma {:induction false} HashCut(nums: Numerics, marker: Token, ts: seq<Token>, k: nat)
    requires (marker.kind == HashStars || marker.kind == HashOther) && ParseHash(nums, marker, ts).Ok? && k <= |ts|
    ensures ParseHash(nums, marker, ts[..k]) == CutRead(ParseHash(nums, marker, ts).value, ts, k)
    decreases |ts|, 3
  {
    TermCut(nums, ts, k);
  }

  lemma {:induction false} WrappedCut(nums: Numerics, marker: Token, head: string, ts: seq<Token>, k: nat)
    requires ParseWrapped(nums, marker, head, ts).Ok? && k <= |ts|
    ensures ParseWrapped(nums, marker, head, ts[..k]) == CutRead(ParseWrapped(nums, marker, head, ts).value, ts, k)
    decreases |ts|, 3
  {
    TermCut(nums, ts, k);
  }

  lemma {:induction false} ContentsCut(nums: Numerics, ts: seq<Token>, k: nat)
    requires ParseContents(nums, ts).Ok? && k <= |ts|
    ensures ContentsCutRead(ParseContents(nums, ts).value, ts, k, ParseContents(nums, ts[..k]))
    decreases |ts|, 4
  {
    if k == 0 {
      assert ts[..k] == [];
    } else if ts[0].kind == Discard {
      ContentsDiscardCut(nums, ts, k);
    } else {
      ContentsFirstCut(nums, ts, k);
    }
  }

  /** What list contents read after their first `xs`, when the rest is `rest`. */
  function Tail(nums: Numerics, xs: seq<Node>, rest: seq<Token>): Result<Parsed<seq<Node>>, ParseError> {
    if AtContentsEnd(rest) then Ok(Parsed(xs, rest)) else PrependParsed(xs, ParseContents(nums, rest))
  }

  /** After a dropped term, list contents go on as the tail after no forms. */
  lemma DiscardTail(nums: Numerics, ts: seq<Token>)
    requires ts != [] && ts[0].kind == Discard && ParseTerm(nums, ts[1..]).Ok?
    ensures ParseContents(nums, ts) == Tail(nums, [], ParseTerm(nums, ts[1..]).value.rest)
  {
    ContentsStep(nums, ts);
    PrependTwice([], [], ParseContents(nums, ParseTerm(nums, ts[1..]).value.rest));
  }

  lemma {:induction false} ContentsDiscardCut(nums: Numerics, ts: seq<Token>, k: nat)
    requires ts != [] && ts[0].kind == Discard && ParseContents(nums, ts).Ok? && 0 < k <= |ts|
    ensures ContentsCutRead(ParseContents(nums, ts).value, ts, k, ParseContents(nums, ts[..k]))
    decreases |ts|, 3
  {
    if ParseTerm(nums, ts[1..]).Err? {
      DiscardFails(nums, ts);
      assert false;
    } else if k - 1 < |ts| - 1 - |ParseTerm(nums, ts[1..]).value.rest| {
      ContentsDiscardShort(nums, ts, k);
    } else {
      ContentsDiscardPast(nums, ts, k);
    }
  }

  /** `#_ x ...` in list position, cut inside `x`. */
  lemma {:induction false} ContentsDiscardShort(nums: Numerics, ts: seq<Token>, k: nat)
    requires ts != [] && ts[0].kind == Discard && ParseContents(nums, ts).Ok? && ParseTerm(nums, ts[1..]).Ok? && 0 < k <= |ts|
    requires k - 1 < |ts| - 1 - |ParseTerm(nums, ts[1..]).value.rest|
    ensures ContentsCutRead(ParseContents(nums, ts).value, ts, k, ParseContents(nums, ts[..k]))
    decreases |ts|, 2
  {
    var cut := ts[..k];
    assert cut[0] == ts[0] && cut[1..] == ts[1..][..k - 1];
    DiscardTail(nums, ts);
    TermCut(nums, ts[1..], k - 1);
    DiscardFails(nums, cut);
  }

  /** `#_ x ...` in list position, cut after `x`. */
  lemma {:induction false} ContentsDiscardPast(nums: Numerics, ts: seq<Token>, k: nat)
    requires ts != [] && ts[0].kind == Discard && ParseContents(nums, ts).Ok? && ParseTerm(nums, ts[1..]).Ok? && 0 < k <= |ts|
    requires k - 1 >= |ts| - 1 - |ParseTerm(nums, ts[1..]).value.rest|
    ensures ContentsCutRead(ParseContents(nums, ts).value, ts, k, ParseContents(nums, ts[..k]))
    decreases |ts|, 2
  {
    var cut := ts[..k];
    assert cut[0] == ts[0];
    var dn := |ts| - 1 - |ParseTerm(nums, ts[1..]).value.rest|;
    TermCut(nums, ts[1..], k - 1);
    DroppedCut(nums, ts, k);
    DiscardTail(nums, ts);
    DiscardTail(nums, cut);
    TailCut(nums, [], ts, 1 + dn, k);
  }

  lemma {:induction false} ContentsFirstCut(nums: Numerics, ts: seq<Token>, k: nat)
    requires ts != [] && ts[0].kind != Discard && ParseContents(nums, ts).Ok? && 0 < k <= |ts|
    ensures ContentsCutRead(ParseContents(nums, ts).value, ts, k, ParseContents(nums, ts[..k]))
    decreases |ts|, 3
  {
    var cut := ts[..k];
    assert cut[0] == ts[0];
    if ParseTerm(nums, ts).Err? {
      FirstFails(nums, ts);
      assert false;
    }
    var f := ParseTerm(nums, ts).value;
    var fn := |ts| - |f.rest|;
    FirstTail(nums, ts);
    TermCut(nums, ts, k);
    if k < fn {
      FirstFails(nums, cut);
    } else {
      TermSuffix(nums, ts);
      assert f.rest == ts[fn..];
      FirstTail(nums, cut);
      TailCut(nums, [f.value], ts, fn, k);
    }
  }

  /** List contents that start with a form go on as the tail after it. */
  lemma FirstTail(nums: Numerics, ts: seq<Token>)
    requires ts != [] && ts[0].kind != Discard && ParseTerm(nums, ts).Ok?
    ensures ParseContents(nums, ts) == Tail(nums, [ParseTerm(nums, ts).value.value], ParseTerm(nums, ts).value.rest)
  {
    ContentsStep(nums, ts);
  }

  /** List contents whose first form fails fail with it. */
  lemma FirstFails(nums: Numerics, ts: seq<Token>)
    requires ts != [] && ts[0].kind != Discard && ParseTerm(nums, ts).Err?
    ensures ParseContents(nums, ts) == Err(ParseTerm(nums, ts).error)
  {
    ContentsStep(nums, ts);
  }

  /** The contents after a first read of `m` tokens that gave `xs`, cut after `k` tokens. */
  lemma {:induction false} TailCut(nums: Numerics, xs: seq<Node>, ts: seq<Token>, m: nat, k: nat)
    requires 0 < m <= k <= |ts|
    requires Tail(nums, xs, ts[m..]).Ok?
    ensures |Tail(nums, xs, ts[m..]).value.rest| <= |ts|
    ensures ContentsCutRead(Tail(nums, xs, ts[m..]).value, ts, k, Tail(nums, xs, ts[m..k]))
    decreases |ts| - m, 6
  {
    var rest := ts[m..];
    var cutRest := ts[m..k];
    if k == m {
      assert cutRest == [];
    } else {
      assert cutRest[0] == rest[0];
      if !AtContentsEnd(rest) {
        TailMoreCut(nums, xs, ts, m, k);
      }
    }
  }

  /** The same, when the contents go on after the first read and the cut falls after it. */
  lemma {:induction false} TailMoreCut(nums: Numerics, xs: seq<Node>, ts: seq<Token>, m: nat, k: nat)
    requires 0 < m < k <= |ts|
    requires !AtContentsEnd(ts[m..]) && ParseContents(nums, ts[m..]).Ok?
    ensures ContentsCutRead(Tail(nums, xs, ts[m..]).value, ts, k, Tail(nums, xs, ts[m..k]))
    decreases |ts| - m, 5
  {
    var rest := ts[m..];
    var cutRest := ts[m..k];
    assert cutRest[0] == rest[0];
    assert cutRest == rest[..k - m];
    ContentsCut(nums, rest, k - m);
    PrependCut(xs, ParseContents(nums, rest).value, ts, m, k, ParseContents(nums, cutRest));
  }

  /** Forms read before the contents of `ts[m..]` carry over to a cut of them. */
  lemma PrependCut(xs: seq<Node>, p: Parsed<seq<Node>>, ts: seq<Token>, m: nat, k: nat, r: Result<Parsed<seq<Node>>, ParseError>)
    requires m <= k <= |ts| && |p.rest| <= |ts| - m
    requires ContentsCutRead(p, ts[m..], k - m, r)
    ensures ContentsCutRead(Parsed(xs + p.value, p.rest), ts, k, PrependParsed(xs, r))
  {
    var n2 := |ts| - m - |p.rest|;
    if k - m >= n2 {
      assert ts[m..][n2..k - m] == ts[m + n2..k];
    }
  }

  lemma {:induction false} BracketedCut(nums: Numerics, b: Bracket, open: Token, ts: seq<Token>, k: nat)
    requires ParseBracketed(nums, b, open, ts).Ok? && k <= |ts|
    ensures ParseBracketed(nums, b, open, ts[..k]) == CutRead(ParseBracketed(nums, b, open, ts).value, ts, k)
    decreases |ts|, 6
  {
    var cut := ts[..k];
    if k == 0 {
      assert cut == [];
      assert ParseContents(nums, []) == Err(PrematureEnd);
    } else if ts[0].kind == CloserOf(b) {
      assert cut[0] == ts[0];
      assert cut[1..] == ts[1..k];
    } else {
      BracketedBodyCut(nums, b, open, ts, k);
    }
  }

  /** A bracketed form with contents, cut after `k` tokens. */
  lemma {:induction false} BracketedBodyCut(nums: Numerics, b: Bracket, open: Token, ts: seq<Token>, k: nat)
    requires ts != [] && ts[0].kind != CloserOf(b) && ParseBracketed(nums, b, open, ts).Ok? && 0 < k <= |ts|
    ensures ParseBracketed(nums, b, open, ts[..k]) == CutRead(ParseBracketed(nums, b, open, ts).value, ts, k)
    decreases |ts|, 5
  {
    var c :| ParseContents(nums, ts) == Ok(c);
    ContentsCut(nums, ts, k);
    ContentsSuffix(nums, ts);
    BodyCut(nums, b, open, ts, k, c);
  }

  /** The same, once the contents `c` of all of `ts` and of its cut are known. */
  lemma BodyCut(nums: Numerics, b: Bracket, open: Token, ts: seq<Token>, k: nat, c: Parsed<seq<Node>>)
    requires ts != [] && ts[0].kind != CloserOf(b) && ParseBracketed(nums, b, open, ts).Ok? && 0 < k <= |ts|
    requires ParseContents(nums, ts) == Ok(c) && IsSuffix(c.rest, ts)
    requires ContentsCutRead(c, ts, k, ParseContents(nums, ts[..k]))
    ensures ParseBracketed(nums, b, open, ts[..k]) == CutRead(ParseBracketed(nums, b, open, ts).value, ts, k)
  {
    if k > |ts| - |c.rest| {
      BodyPastCut(nums, b, open, ts, k, c);
    } else {
      BodyShortCut(nums, b, open, ts, k, c);
    }
  }

  /** The same, when the cut falls before the closing bracket. */
  lemma BodyShortCut(nums: Numerics, b: Bracket, open: Token, ts: seq<Token>, k: nat, c: Parsed<seq<Node>>)
    requires ts != [] && ts[0].kind != CloserOf(b) && ParseBracketed(nums, b, open, ts).Ok? && 0 < k <= |ts|
    requires ParseContents(nums, ts) == Ok(c) && k <= |ts| - |c.rest|
    requires ParseContents(nums, ts[..k]) == Err(PrematureEnd) || (ParseContents(nums, ts[..k]).Ok? && ParseContents(nums, ts[..k]).value.rest == [])
    ensures ParseBracketed(nums, b, open, ts[..k]) == Err(PrematureEnd)
    ensures k < |ts| - |ParseBracketed(nums, b, open, ts).value.rest|
  {
    var cut := ts[..k];
    assert cut[0] == ts[0];
    BodyStep(nums, b, open, ts, c);
    var cc := ParseContents(nums, cut);
    if cc.Ok? {
      BodyStep(nums, b, open, cut, cc.value);
    }
  }

  /** The same, when the cut falls after the closing bracket. */
  lemma BodyPastCut(nums: Numerics, b: Bracket, open: Token, ts: seq<Token>, k: nat, c: Parsed<seq<Node>>)
    requires ts != [] && ts[0].kind != CloserOf(b) && ParseBracketed(nums, b, open, ts).Ok? && 0 < k <= |ts|
    requires ParseContents(nums, ts) == Ok(c) && IsSuffix(c.rest, ts) && k > |ts| - |c.rest|
    requires ParseContents(nums, ts[..k]) == Ok(Parsed(c.value, ts[|ts| - |c.rest|..k]))
    ensures ParseBracketed(nums, b, open, ts[..k]) == CutRead(ParseBracketed(nums, b, open, ts).value, ts, k)
  {
    var cut := ts[..k];
    assert cut[0] == ts[0];
    var cn := |ts| - |c.rest|;
    BodyStep(nums, b, open, ts, c);
    assert ts[cn..k][0] == c.rest[0];
    assert ts[cn..k][1..] == ts[cn + 1..k];
    assert c.rest[1..] == ts[cn + 1..];
    BodyStep(nums, b, open, cut, Parsed(c.value, ts[cn..k]));
  }

  /**
   * Input that stops inside a term asks for more: every proper prefix of the
   * tokens a term reads is a premature end, and so is that prefix read as a
   * whole input unless it starts with `#_` (whose dropped form may be complete).
   */
  lemma TermCutShort(nums: Numerics, ts: seq<Token>, k: nat)
    requires ParseTerm(nums, ts).Ok?
    requires k < |ts| - |ParseTerm(nums, ts).value.rest|
    ensures ParseTerm(nums, ts[..k]) == Err(PrematureEnd)
    ensures 0 < k && ts[0].kind != Discard ==> Parse(nums, ts[..k]) == Err(PrematureEnd)
  {
    TermCut(nums, ts, k);
    if 0 < k && ts[0].kind != Discard {
      ParseStep(nums, ts[..k]);
      ContentsStep(nums, ts[..k]);
    }
  }
}

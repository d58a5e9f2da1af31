# The Hy reader, modelled in Dafny

This project models the reader of the Hy Lisp (`hy/lex/parser.py`). The lexer
produces a stream of typed tokens, and the reader turns that stream into
literal data forms: symbols, keywords, numbers, strings, expressions, lists,
dicts, sets and dotted-list cons cells. A malformed input is rejected with a
line and column. Input that stops in the middle of a form is reported as a
premature end, so that an interactive caller can ask for more.

The model has four parts.

- **Mangling** (`mangling.dfy`). `Mangle` and `Unmangle` apply the four rewrite
  rules of `hy_symbol_mangle` and `hy_symbol_unmangle` in their fixed order.
  The proofs cover the exceptions, the identity cases, hyphen- and dot-freedom,
  and an exact round-trip condition for ordinary lower-case names.
- **Classification** (`classify.dfy`). `SymbolLike` follows `symbol_like`.
  `IdentifierForm` is the body of `t_identifier`, and `IdentifierAction` is that
  body under its `set_boundaries` decorator. The host's numeric constructors are a
  parameter, `Numerics`: a partial integer parser and two acceptance predicates.
- **Semantic actions** (`actions.dfy`) for the productions:
  - the dot check `reject_spurious_dots`, an imperative method proved against
    the function `SpuriousDots`;
  - the `paren` action, with dotted lists turned into nested cons cells;
  - the collections;
  - the reader-macro wrappers `#*`, `#**` and `#tag`.
- **The grammar** (`reader.dfy`). Each nonterminal is a function from the
  remaining tokens to its form and the tokens after it. The proofs are in
  `reader_proofs.dfy`, `form_proofs.dfy` and `reader_errors.dfy`:
  - malformed input stays malformed whatever follows;
  - reading complete inputs one after another is reading them concatenated;
  - `#_` and its form leave no trace;
  - spans cover exactly the tokens read;
  - every form is well formed;
  - an unexpected-token error always names a closing bracket of the input;
  - input cut off anywhere inside a term is a premature end, never malformed.

Spans are `Span(startLine, startColumn, endLine, endColumn)`, stamped as
`set_boundaries` and `set_quote_boundaries` do:

- A single-token production ends at its start column plus the length of its
  text.
- A production of several tokens ends at the start of its last token.
- A reader-macro form ends where its wrapped form ends.

The generated LALR parser is replaced by recursive descent, for these reasons:

- In LALR, the lookahead that ends a `list_contents` is a closing bracket or
  the end of input, whichever bracket encloses it. The model stops its contents
  at those same tokens.
- In list position, `#_ t` followed by a closing bracket or the end of input
  ends the contents with no form. Followed by anything else, the `#_` drops `t`
  and the contents go on. Both grammar readings of `#_` give this result.
- The actions that raise (`t_identifier`, `term_hashstars`, `paren` and
  `t_partial_string`) reduce once the parser has read the next token. LALR
  merges lookaheads, so every token type and the end of input is a valid
  lookahead for these reductions. Reading that token therefore never fails
  first, and the model raises the action's error without looking at it.

## Model

| member | source | states |
|---|---|---|
| `Mangling.MangleSingle` | hy/lex/parser.py:25-38 | a text of one character comes out of mangling unchanged, since each rule excludes the text that is only its own marker |
| `Mangling.MangleExceptions` | hy/lex/parser.py:25-38 | `-`, `?`, `!`, `*` and `**` come out of mangling unchanged |
| `Mangling.MangleUnmarked` | hy/lex/parser.py:25-38 | text with no `-`, no earmuffs, and no trailing `?` or `!` is left unchanged |
| `Mangling.MangleHyphenFree` | hy/lex/parser.py:29-30 | a mangled name contains `-` only when it is exactly `-` |
| `Mangling.MangleDotFree` | hy/lex/parser.py:25-38 | mangling never introduces a `.`, so mangled segments can be rejoined with `.` |
| `Mangling.MangleNotIdempotent` | hy/lex/parser.py:32-33 | the `?` rule fires once per application: `a??` mangles to `is_a?`, then to `is_is_a` |
| `Mangling.MangleNotInjective` | hy/lex/parser.py:41-57 | `a-b` and `a_b` both mangle to `a_b`, which unmangles to `a-b`, so unmangling is best effort |
| `Mangling.RoundTrip` | hy/lex/parser.py:25-57 | for a name of lower-case letters and hyphens, unmangling the mangled name gives it back if and only if it has no `is-` prefix and no `-bang` suffix |
| `Mangling.EarmuffRoundTrip` | hy/lex/parser.py:25-58 | `*x*` for a lower-case `x` mangles to upper-case `X`, and `X` unmangles back to `*x*` |
| `Classify.ClassificationOrder` | hy/lex/parser.py:313-341 | the order of trial: integer, then fraction, then float, then complex (never for the bare text `j`), then keyword (a leading `:` and no `.`), which keeps its whole text; each result holds exactly when its own test passes and every earlier one fails, and there is no result (the text is a symbol) exactly when every test fails |
| `Classify.FractionExactlyOneSlash` | hy/lex/parser.py:320-326 | `lhs/rhs` with both sides integers and no other `/` is the fraction of those two integers; with a second `/` it is never read as a fraction |
| `Classify.IdentifierOutcome` | hy/lex/parser.py:293-310 | numbers and keywords win before any mangling; the attribute error happens exactly when the text has a `.` and its first segment is a number or keyword, and it is reported at the token; any other text that is not number- or keyword-like becomes the symbol named by its `.`-segments, each mangled, rejoined with `.`; the span is the token's text |
| `Classify.PlainSymbolName` | hy/lex/parser.py:310 | a dotted name whose every segment is already unchanged by mangling is its own symbol name |
| `Classify.SymbolNameSegments` | hy/lex/parser.py:310 | splitting the symbol name on `.` gives back the mangled segments, none with `-` except a bare `-` |
| `Actions.SpuriousDots` | hy/lex/parser.py:104-110 | no error exactly when no item of any list is a bare `.`; otherwise the malformed-dotted-list error at the first bare `.` in list order |
| `Actions.RejectSpuriousDots` | hy/lex/parser.py:104-110 | the nested loop reports the first bare `.` across the lists in order, at that symbol's start line and column, and otherwise reports nothing |
| `Actions.Paren` | hy/lex/parser.py:113-138 | a successful paren action, dotted or not, is stamped with the span from the opening bracket to the closing bracket |
| `Actions.ParenDotted` | hy/lex/parser.py:113-131 | when there are at least three items and the second-to-last is a bare `.`, the form is rejected at the first bare `.` among the other items (the first and last included); otherwise it is the chain of cons cells over the items before the dot, ending in the last item |
| `Actions.ParenPlain` | hy/lex/parser.py:133-138 | any other contents give an expression of the same items, unless some item after the first is a bare `.`, so `(. a b)` is an ordinary expression |
| `Actions.ConsChainShape` | hy/lex/parser.py:126-131 | a dotted list of n items before the dot has exactly n cons cells: the k-th holds the k-th item, every cell has the paren's span, and the n-th cdr is the last item |
| `Actions.BuildBracket` | hy/lex/parser.py:233-266 | set, dict and list never fail (only parentheses check dots) and hold exactly the contents, in order; every bracketed form is stamped from its opening bracket to its closing bracket |
| `Actions.HashStarsAction` | hy/lex/parser.py:207-220 | one or two stars succeed and any other count fails as too many stars at the marker's line and column; the form spans from the marker to the end of the child |
| `Actions.HashOtherAction` | hy/lex/parser.py:223-230 | a three-item expression ending in the child, spanning from the marker to the end of the child |
| `Syntax.SetBoundaries` | hy/lex/parser.py:63-78 | the span starts at the first token; a single token ends at its text's end, and several tokens end at the start of the last one (in every use a closing bracket) |
| `Syntax.SetQuoteBoundaries` | hy/lex/parser.py:81-91 | the span starts at the marker and ends where the wrapped form's span ends |
| `Reader.Atom` | hy/lex/parser.py:268-310 | an identifier or a string consumes exactly its own token and is stamped with a span |
| `Reader.ParseTerm` | hy/lex/parser.py:167-229 | a term consumes at least one token and is stamped with a span |
| `Reader.ParseContents` | hy/lex/parser.py:146-165 | list contents consume input, all their forms are stamped, and they end only at a closing bracket or the end of input |
| `Reader.ParseWrapped` | hy/lex/parser.py:183-204 | a quote-marker term consumes at least one token after the marker and is stamped |
| `Reader.ParseHash` | hy/lex/parser.py:207-229 | a hash-marker term consumes at least one token after the marker and is stamped |
| `Reader.ParseBracketed` | hy/lex/parser.py:113-266 | a bracketed form consumes at least one token and is stamped |
| `Reader.Parse` | hy/lex/parser.py:94-101 | every form of an accepted input carries a span |
| `ReaderProofs.TermSuffix` | hy/lex/parser.py:167-229 | what is left after a term is exactly the input after the tokens it read |
| `ReaderProofs.ContentsSuffix` | hy/lex/parser.py:146-165 | what is left after list contents is exactly the input after the tokens they read |
| `ReaderProofs.BracketedSuffix` | hy/lex/parser.py:233-266 | what is left after a bracketed form is exactly the input after it, and the last token it read is the closing bracket that matches its opener |
| `ReaderProofs.TermExtends` | hy/lex/parser.py:344-352 | reading a term from longer input gives the same form, followed by the extra tokens; a malformed term stays the same error |
| `ReaderProofs.ContentsExtends` | hy/lex/parser.py:146-165 | the same for list contents, where they had stopped at a closing bracket or where the extra tokens end them |
| `ReaderProofs.MalformedIsFinal` | hy/lex/parser.py:344-352 | an input rejected as malformed is rejected with the same error whatever follows it; only a premature end can be cured by more input |
| `ReaderProofs.ParseConcat` | hy/lex/parser.py:146-155 | a complete input followed by more reads as the first input's forms followed by what the rest reads to, including the rest's error |
| `ReaderProofs.DiscardVanishes` | hy/lex/parser.py:157-165 | `#_` with one complete form reads to no forms, and inserting it between complete inputs changes nothing |
| `ReaderProofs.EmptyInsert` | hy/lex/parser.py:146-165 | inserting an input that reads to no forms between two complete inputs changes nothing |
| `ReaderProofs.DiscardInTerm` | hy/lex/parser.py:178-180 | `#_ x y` in term position reads as `y` |
| `ReaderProofs.BracketBody` | hy/lex/parser.py:233-266 | a body that reads completely, followed by its closing bracket, gives the bracketed form built from the body's forms; `[...]`, `{...}` and `#{...}` are the list, dict and set of exactly those forms |
| `ReaderProofs.EmptyBody` | hy/lex/parser.py:141-266 | a body that reads to no forms, such as `#_a #_b`, makes its brackets equal the empty ones; `()`, `[]`, `{}` and `#{}` are the empty expression, list, dict and set |
| `ReaderProofs.QuoteMacros` | hy/lex/parser.py:183-204 | QUOTE, QUASIQUOTE, UNQUOTE and UNQUOTESPLICE wrap the next term `t` as `(quote t)`, `(quasiquote t)`, `(unquote t)` and `(unquote_splice t)`, spanning from the marker to the end of `t` |
| `ReaderProofs.StarMacros` | hy/lex/parser.py:207-219 | `#*` gives `(unpack_iterable t)`, `#**` gives `(unpack_mapping t)`, and any other star count is malformed at the marker's position |
| `ReaderProofs.TagMacro` | hy/lex/parser.py:222-229 | `#tag t` gives `(dispatch_tag_macro "tag" t)`, with the tag text unmangled and unstamped, spanning from the marker to the end of `t` |
| `ReaderProofs.ReaderMacroFails` | hy/lex/parser.py:183-229 | a reader macro whose term fails fails with the term's error |
| `FormProofs.TermSpan` | hy/lex/parser.py:63-91 | a form's span ends where the last token it consumed ends (a closing bracket's start, any other token's text end); it starts at its first token unless that is a `#_` |
| `FormProofs.BracketedSpan` | hy/lex/parser.py:63-78 | a bracketed form spans from its opening bracket to the matching closing bracket it consumed last |
| `FormProofs.ParenWellFormed` | hy/lex/parser.py:113-138 | no cons cell built by the paren action holds a bare `.` as car or cdr |
| `FormProofs.ParseWellFormed` | hy/lex/parser.py:293-341 | every form of an accepted input is well formed: no segment of a symbol name contains `-` except a bare `-`, keywords start with `:` and have no `.`, and no cons cell holds a bare `.` |
| `ErrorProofs.ParenFailsOnDots` | hy/lex/parser.py:104-138 | the paren action fails only with a malformed dotted list |
| `ErrorProofs.ParseBlame` | hy/lex/parser.py:344-352 | an unexpected-token error always names a closing bracket of the input, with its own type name, line and column; every other token can start a form |
| `ErrorProofs.CutShort` | hy/lex/parser.py:278-281 | the base cases: no tokens, a lone opening bracket, or input that starts with a PARTIAL_STRING token reads as a premature end of input |
| `ErrorProofs.TermCutShort` | hy/lex/parser.py:344-348 | every proper prefix of the tokens a complete term reads is a premature end, in term position and, unless the term starts with `#_`, as a whole input |

## Left out

- The LALR table generator (`ParserGenerator`, its cache and `pg.build()`) is not modelled. The productions are read top-down instead, for the reasons given above.
- The decoding of STRING tokens by host-literal evaluation is not modelled. The token carries the decoded content and whether it is bytes.
- The bracket-string regular expression belongs to the lexer, which is not part of this model. The token carries the delimiter and the content.
- The numeric constructors `HyInteger`, `HyFloat` and `HyComplex` are host number parsing. They are the `Numerics` parameter, and float and complex forms keep their text.
- The normalisation `HyCons` applies when the cdr is itself a list belongs to `hy.models`, which is not part of this model. Cons cells are kept exactly as the paren action builds them.
- The case mapping used by mangling covers ASCII letters only. The host's Unicode upper-casing, lower-casing and letter tests are not modelled.
- Span stamping assigns four fields on a freshly built form, and the model returns the form with its span. Every stamped form is new, so no aliasing is lost.
- The lexer, the exception classes and `str_type` are not part of this model. Tokens are given with their type, text, line and column, and errors are the `ParseError` datatype, whose `Message` gives the source's texts.

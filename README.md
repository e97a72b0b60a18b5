# Streaming lexer for a parenthesised language, in Dafny

This project models the streaming lexer of a tiny language whose tokens are
identifiers `[A-Za-z_][A-Za-z0-9_]*`, `(`, `)` and an end-of-input marker, and
proves properties of the model. The repository holds two drafts of the lexer
and a separate token type; all three are modelled.

- `stutterxx::token` (stutterxx/token.hxx) is module `Tokens`: a closed
  four-way variant `Lexeme` (`eof`, `ident{name}`, `lparen`, `rparen`) and the
  `Token` value that stores one alternative and converts back to it. The
  frameless draft's `lexeme` (src/lex.hxx:33) has the same four
  alternatives in another order, `variant<lparen, rparen, ident, eof>`, and
  its `ident` is a `std::string` rather than a struct with a `name`; both
  drafts are modelled with the one datatype `Lexeme`, whose `Tokens.Index`
  is the stutterxx order only. The frameless display texts
  (src/lex.hxx:69-85) are `Tokens.Render`.
- The scanning step both drafts share is module `Scanner`. `Classify` tries an
  identifier, then `(`, then `)` at the front of the buffer after leading
  whitespace, and returns the lexeme with the unmatched suffix. `Scan` refills
  an empty buffer from the chunk source, reports `eof` once buffer and source
  are both exhausted, and classifies otherwise. A buffer whose front matches
  none of the patterns gives the error `NoMatch(buffer)`: no token is
  produced, nothing is skipped, and the buffer is kept, so the error repeats.
  `LexChunk`/`LexAll` are a reference semantics that lexes the whole input
  at once; the streaming step is proved to refine it.
- `std::istream` extraction (`source >> buffer`) is module `Stream`: a
  `ChunkStream` object holding the whitespace-free runs the stream yields and
  a cursor into them.
- `stutterxx::lex` (stutterxx/lex.hxx) is module `StutterLex`. A `Lexer` class
  owns the stream and a residual `buffer`; `Get` is `lex::get`. An `Iterator`
  class holds a nullable lexer pointer, `pos` and `cur`. `pos` becomes
  `SIZE_MAX`, the value `end()` has, when `eof` is produced.
- `frameless::lexer::lex` (src/lex.hxx) is module `FramelessLex`. The `Lex`
  class only refers to the stream. Each `Iterator` owns its `buffer`, `cur`
  and `pos`, and `++it` updates them in place. `pos` returns to 0, the value
  `end()` has, on `eof`.

Each imperative operation (`get`, both `operator++`) is a method proved
against a pure function of the state (`Scan`, `StutterLex.Advance`,
`FramelessLex.Advance`, and `Iteration.Iterate` for `operator++(int)`).
Loops over the iterator are described by `Yielded(step, s, fuel)`: the tokens
a `for (it = begin; it != end(); ++it)` loop dereferences, at most `fuel` of
them. The loop theorems are proved once for an arbitrary transition `step`
and then applied to `PreIncrement(chunks)`, the `++it` of each draft.

`size_t` is 64 bits wide and wraps (`Platform.SizeInc`). Theorems about where
a loop ends therefore bound the number of tokens by `SIZE_MAX`. The wrap itself is
stated as a lemma (`WrapLooksLikeEnd`).

How the end of input reaches a consumer:
- A loop over the stutterxx iterator dereferences `eof` only for empty input,
  because `++it` moves `pos` to the end value in the same step that produces
  `eof` (`StutterLex.BeginYields`).
- A loop over the frameless iterator never dereferences `eof`
  (`FramelessLex.BeginNeverYieldsEof`); for empty input `begin()` already
  equals `end()`.
- Every failed extraction counts as end of input (`!(source >> buffer)`), so a
  read failure and exhaustion are the same to both drafts and to the model.

## Model

| member | source | states |
|---|---|---|
| Tokens.Index | stutterxx/token.hxx:19 | each lexeme holds exactly one of the four alternatives, at its position in `variant<eof, ident, lparen, rparen>` |
| Tokens.Of | stutterxx/token.hxx:39-48 | a token built by a converting constructor holds exactly the alternative it was given |
| Tokens.Token.ToVariant | stutterxx/token.hxx:50 | `operator variant` returns the alternative that rebuilds the same token |
| Tokens.VariantRoundTrip | stutterxx/token.hxx:39-50 | building a token from an alternative and converting it back gives that alternative |
| Tokens.IdentKeepsName | stutterxx/token.hxx:35-37 | a token built from `ident(name)` converts back to an `ident` with exactly `name` |
| Tokens.PayloadFreeAlternativesEqual | stutterxx/token.hxx:8-17 | two `eof`, `lparen` or `rparen` values of the same kind are equal |
| Tokens.TokenEqualityIsVariantEquality | stutterxx/token.hxx:30 | two tokens are equal exactly when their variants are equal |
| Platform.SizeInc | stutterxx/lex.hxx:110 | `++pos` on a `size_t` is one more modulo 2^64 |
| Scanner.SpaceRun | stutterxx/lex.hxx:68 | the leading `\s*` is the longest run of whitespace at the front |
| Scanner.IdentRun | stutterxx/lex.hxx:68 | `[a-zA-Z0-9_]*` is the longest run of identifier characters at the front |
| Scanner.Classify | stutterxx/lex.hxx:67-82 | on success, the lexeme is not `eof`, is well formed, and its text followed by the rest is the buffer after leading whitespace; the rest is shorter than the buffer; an identifier is not followed by an identifier character; failure happens exactly when the buffer after whitespace is empty or starts with no lexeme, and reports that buffer |
| Scanner.IdentRunOf | stutterxx/lex.hxx:68 | the greedy identifier run stops exactly where the identifier characters stop |
| Scanner.ClassifyUnique | stutterxx/lex.hxx:67-82 | a buffer made of a lexeme's text and a rest (an identifier not followed by an identifier character) classifies as exactly that lexeme and that rest, with identifier before `(` before `)` |
| Scanner.ClassifyIdent | stutterxx/lex.hxx:67-71 | a buffer starting with an identifier gives `ident` with the whole greedy identifier and leaves exactly the rest |
| Scanner.ClassifyParen | stutterxx/lex.hxx:74-82 | a buffer starting with `(` or `)` gives `lparen` or `rparen` and drops exactly that one character |
| Scanner.ClassifyRender | src/lex.hxx:69-85 | the display text of a producible lexeme classifies back to that lexeme with nothing left |
| Scanner.RenderDistinguishes | src/lex.hxx:69-85 | two producible lexemes with the same display text are equal, except `eof` and the identifier `eof` |
| Scanner.RenderedEofRelexesAsIdent | src/lex.hxx:69-71 | the display text "eof" lexes back as an identifier, not as end of input |
| Scanner.Scan | stutterxx/lex.hxx:62-83 | one step reports `eof` exactly when buffer and source are both exhausted, and then changes nothing; an emitted lexeme is well formed and its text followed by the new buffer is the refilled buffer after whitespace; a failure reports the refilled buffer and keeps it |
| Scanner.ScanEofIsTerminal | stutterxx/lex.hxx:62-65 | from an exhausted state a step gives `eof` and the same state, so `eof` repeats forever |
| Scanner.ScanErrorSticky | stutterxx/lex.hxx:67-83 | after a classification failure, the next step fails the same way on the same state: nothing is skipped |
| Scanner.LexChunk | stutterxx/lex.hxx:67-82 | lexing one buffer to its end produces only well-formed non-`eof` lexemes |
| Scanner.LexChunkStep | stutterxx/lex.hxx:67-82 | lexing a buffer is its first classification followed by the lexing of the rest |
| Scanner.LexAll | stutterxx/lex.hxx:62-83 | lexing the whole source produces only well-formed non-`eof` lexemes |
| Scanner.RemainingRefill | stutterxx/lex.hxx:63 | refilling an empty buffer from the next chunk changes neither what remains to be produced nor how many characters are pending |
| Scanner.ScanRefinesBatch | stutterxx/lex.hxx:62-83 | a step emits `eof` exactly when nothing remains; an emitted lexeme is the first of what remains and the new state produces the rest; a failing step reports exactly the error the whole-input lexing reports first |
| Scanner.ScanShrinks | stutterxx/lex.hxx:67-82 | every step that emits a lexeme consumes at least one pending character |
| Scanner.LexChunkRender | src/lex.hxx:69-85 | a producible lexeme's display text is a valid chunk and lexes to that lexeme alone |
| Scanner.RenderRoundTrip | src/lex.hxx:69-85 | a stream whose chunks are the display texts of producible lexemes is valid input and lexes to exactly those lexemes |
| Scanner.LexChunkSpells | stutterxx/lex.hxx:67-82 | within a whitespace-free buffer, the display texts of its lexemes written one after the other are the buffer |
| Scanner.LexRoundTrip | stutterxx/lex.hxx:62-83 | for input that lexes, the display texts of the lexemes written one after the other are the input without its whitespace |
| Scanner.LexIdentThen | stutterxx/lex.hxx:67-71 | a buffer holding an identifier and then a rest lexes to that identifier followed by the rest's lexemes |
| Scanner.LexParenThen | stutterxx/lex.hxx:74-82 | a buffer holding a parenthesis and then a rest lexes to that parenthesis followed by the rest's lexemes |
| ScannerExamples.LexClose | stutterxx/lex.hxx:79-82 | ")" lexes to `rparen` |
| ScannerExamples.LexWord | stutterxx/lex.hxx:67-71 | a chunk that is one identifier lexes to that identifier |
| ScannerExamples.LexWordClose | stutterxx/lex.hxx:67-82 | "w)" lexes to `ident w`, `rparen` |
| ScannerExamples.LexParenthesised | stutterxx/lex.hxx:67-82 | "(w)" lexes to `lparen`, `ident w`, `rparen` |
| ScannerExamples.HelloWorld | src/frameless.cxx:9 | the chunks of "hello (world)" lex to `ident`, `lparen`, `ident`, `rparen` |
| ScannerExamples.LexCall | stutterxx/lex.hxx:67-82 | "foo(bar)" as one buffer lexes to `ident`, `lparen`, `ident`, `rparen` |
| ScannerExamples.Adjacency | stutterxx/lex.hxx:67-82 | parentheses need no whitespace: the one chunk "foo(bar)" lexes to four lexemes |
| ScannerExamples.IllegalCharacter | stutterxx/lex.hxx:67-83 | "foo$bar" fails at "$bar" instead of skipping the `$` |
| Stream.ChunkStream.constructor | stutterxx/lex.hxx:57-58 | a stream of valid chunks, positioned before its first chunk |
| Stream.ChunkStream.Read | stutterxx/lex.hxx:63 | `source >> buffer` succeeds exactly when a chunk is left, yields that non-empty whitespace-free chunk and moves past it; on failure it reads nothing |
| StutterLex.Lift | stutterxx/lex.hxx:64-81 | a step's outcome as a `token`: the same lexeme or the same error |
| StutterLex.Start | stutterxx/lex.hxx:85-89 | an attached iterator starts with count 0 and holds `eof` exactly when the lexer is exhausted |
| StutterLex.Advance | stutterxx/lex.hxx:103-114 | `++it` keeps the source cursor within the source |
| StutterLex.AdvanceSpec | stutterxx/lex.hxx:103-114 | `++it` sets `pos` to `SIZE_MAX` exactly when it produces `eof`, which happens exactly when the input is used up, and then leaves the lexer unchanged; otherwise `pos` goes up by one |
| StutterLex.EofIsIdempotent | stutterxx/lex.hxx:62-65 | once `++it` has produced `eof`, further `++it` change nothing |
| StutterLex.AdvanceOk | stutterxx/lex.hxx:103-114 | against the whole-input lexing: with nothing left `++it` gives `eof` and the end value; otherwise it gives the next lexeme, counts one more and leaves exactly the rest |
| StutterLex.AdvanceErr | stutterxx/lex.hxx:103-114 | against a failing whole-input lexing: `++it` counts one more and either reports that error or moves past a lexeme with the error still ahead and fewer characters pending |
| StutterLex.WrapLooksLikeEnd | stutterxx/lex.hxx:107-111 | after `SIZE_MAX` tokens the next token is not `eof`, yet `pos` reaches the end value |
| StutterLex.Drain | stutterxx/lex.hxx:124-127 | a loop over a transition that produces `ts` and then the end value yields the current token, exactly `ts`, and stops |
| StutterLex.ErrorYielded | stutterxx/lex.hxx:124-127 | an error a transition reaches within `k` counted steps is dereferenced by the loop |
| StutterLex.YieldedFromStart | stutterxx/lex.hxx:124-127 | a loop starting on the first of `ts` yields exactly `ts`; one starting on `eof` with the end next yields that `eof` once; `eof` is yielded exactly when `ts` is empty |
| StutterLex.RemainingProduces | stutterxx/lex.hxx:103-114 | `++it` goes on to produce exactly what remains of the whole-input lexing, then the end value |
| StutterLex.RemainingError | stutterxx/lex.hxx:103-114 | `++it` reaches the error of a failing whole-input lexing within one step more than the characters pending |
| StutterLex.BeginHolds | stutterxx/lex.hxx:129-132 | `begin()` holds the first lexeme with the rest still to come, or `eof` on an exhausted source |
| StutterLex.BeginYields | stutterxx/lex.hxx:129-137 | iterating `begin()` to `end()` yields exactly the lexemes of the input; empty input yields `eof` once and other input never yields it |
| StutterLex.BeginReportsError | stutterxx/lex.hxx:129-137 | iterating `begin()` on input that cannot be lexed dereferences the error before reaching `end()` |
| StutterLex.Lexer.constructor | stutterxx/lex.hxx:57-60 | the lexer takes the stream with nothing buffered |
| StutterLex.Lexer.Get | stutterxx/lex.hxx:62-83 | `get()` returns the step's outcome as a token and leaves the buffer and stream where the step leaves them |
| StutterLex.Lexer.Begin | stutterxx/lex.hxx:129-132 | `begin()` returns a fresh iterator attached to this lexer after one `get` |
| StutterLex.Lexer.End | stutterxx/lex.hxx:134-137 | `end()` returns a fresh detached iterator whose count is `SIZE_MAX` and whose token is `eof` |
| StutterLex.Iterator.constructor | stutterxx/lex.hxx:85-89 | an attached iterator counts 0 and holds the lexer's first token |
| StutterLex.Iterator.Sentinel | stutterxx/lex.hxx:91-96 | the detached iterator has no lexer, count `SIZE_MAX` and `eof` |
| StutterLex.Iterator.Current | stutterxx/lex.hxx:98-101 | `*it` is the token the last step produced |
| StutterLex.Iterator.Increment | stutterxx/lex.hxx:103-114 | `++it` on an attached iterator moves lexer and iterator to the next state; on the detached one it changes nothing |
| StutterLex.Iterator.IncrementBy | stutterxx/lex.hxx:116-122 | `operator++(int n)` is `++it` applied exactly `n` times for positive `n` and not at all otherwise |
| StutterLex.Iterator.NotEqual | stutterxx/lex.hxx:124-127 | `!=` compares the counts only, never the tokens |
| FramelessLex.Initial | src/lex.hxx:89 | a new iterator has an empty buffer, count 0 and the default lexeme `lparen` |
| FramelessLex.Advance | src/lex.hxx:95-120 | `++it` keeps the stream cursor within the stream |
| FramelessLex.AdvanceSpec | src/lex.hxx:95-102 | `++it` produces `eof` exactly when buffer and stream are exhausted, and then sets `pos` to 0 and leaves the buffer empty; otherwise it adds one to `pos` |
| FramelessLex.EofIsIdempotent | src/lex.hxx:95-100 | once `++it` has produced `eof`, further `++it` change nothing |
| FramelessLex.AdvanceOk | src/lex.hxx:95-120 | against the whole-input lexing: with nothing left `++it` gives `eof` and count 0; otherwise it gives the next lexeme, counts one more and leaves exactly the rest |
| FramelessLex.AdvanceErr | src/lex.hxx:102-118 | against a failing whole-input lexing: `++it` counts one more and either reports that error or moves past a lexeme with the error still ahead and fewer characters pending |
| FramelessLex.WrapLooksLikeEnd | src/lex.hxx:102 | after `SIZE_MAX` increments the next lexeme is not `eof`, yet `pos` is 0, the end value |
| FramelessLex.Drain | src/lex.hxx:129-131 | a loop over a transition that produces `ts` and then the end value yields the current lexeme, exactly `ts`, and stops |
| FramelessLex.YieldedFromStart | src/lex.hxx:133-141 | a loop begun by one step from count 0 yields exactly the lexemes produced, and starts at the end value exactly when there are none |
| FramelessLex.EofNeverYielded | src/lex.hxx:95-100 | if `eof` only ever comes with count 0, the loop never dereferences `eof` |
| FramelessLex.ErrorYielded | src/lex.hxx:129-131 | an error a transition reaches within `k` counted steps is dereferenced by the loop |
| FramelessLex.ErrorYieldedFromStart | src/lex.hxx:133-137 | the same for a loop begun by one step from count 0 |
| FramelessLex.RemainingProduces | src/lex.hxx:95-120 | `++it` goes on to produce exactly what remains of the whole-input lexing, then count 0 |
| FramelessLex.RemainingError | src/lex.hxx:95-120 | `++it` reaches the error of a failing whole-input lexing within one step more than the characters pending |
| FramelessLex.PreIncrementEndsOnEof | src/lex.hxx:95-100 | `++it` produces `eof` only together with count 0 |
| FramelessLex.BeginYields | src/lex.hxx:133-141 | iterating `begin()` to `end()` yields exactly the lexemes of the input; `begin()` equals `end()` exactly for empty input |
| FramelessLex.BeginNeverYieldsEof | src/lex.hxx:95-100 | whatever the input, iterating `begin()` to `end()` never dereferences `eof` |
| FramelessLex.BeginReportsError | src/lex.hxx:104-118 | iterating `begin()` on input that cannot be lexed dereferences the error before reaching `end()` |
| FramelessExamples.HelloWorldLoop | src/frameless.cxx:9-10 | the loop over "hello (world)" dereferences `ident`, `lparen`, `ident`, `rparen` and then stops |
| FramelessLex.Lex.constructor | src/lex.hxx:87 | the lexer refers to the stream and reads nothing |
| FramelessLex.Lex.Begin | src/lex.hxx:133-137 | `begin()` is a fresh iterator advanced once |
| FramelessLex.Lex.End | src/lex.hxx:139-141 | `end()` is a fresh iterator not advanced, so with count 0 |
| FramelessLex.Iterator.constructor | src/lex.hxx:89 | a new iterator on the stream is in the initial state |
| FramelessLex.Iterator.Current | src/lex.hxx:91-93 | `*it` is the lexeme the last step produced |
| FramelessLex.Iterator.Increment | src/lex.hxx:95-120 | `++it` moves the iterator's buffer, lexeme, count and the shared stream to the next state |
| FramelessLex.Iterator.IncrementBy | src/lex.hxx:122-127 | `operator++(int n)` is `++it` applied exactly `n` times for positive `n` and not at all otherwise |
| FramelessLex.Iterator.NotEqual | src/lex.hxx:129-131 | `!=` compares the counts only |

## Left out

- The `std::regex` engine: the three patterns are matched by hand on ASCII characters (`Scanner.Classify`). `\s` is taken in the C locale. ECMAScript regex semantics are not modelled.
- The no-match paths: `lex::get` falls off its end (stutterxx/lex.hxx:83), and the frameless `++it` keeps a stale `cur` and replaces the buffer with the suffix of a failed match (src/lex.hxx:104-118). Both are modelled as the explicit error `NoMatch`, with the buffer kept, instead of the undefined or stale result.
- `std::istream` extraction is a sequence of non-empty whitespace-free chunks plus a cursor. A read failure other than exhaustion is not modelled, because the code treats every failed extraction as end of input.
- Whitespace between chunks is not part of the stream model: chunks arrive already split, as `>>` into a `std::string` delivers them.
- StutterLex.Advance: its own contract only keeps the source cursor in range; what `++it` does is stated by `StutterLex.AdvanceSpec`, `AdvanceOk` and `AdvanceErr`.
- FramelessLex.Advance: its own contract only keeps the stream cursor in range; what `++it` does is stated by `FramelessLex.AdvanceSpec`, `AdvanceOk` and `AdvanceErr`.
- StutterLex.BeginYields: requires at most `SIZE_MAX` tokens, because with one more the (`SIZE_MAX`+1)-th token would move `pos` to the end value before `eof` (`StutterLex.WrapLooksLikeEnd`).
- FramelessLex.BeginYields: requires at most `SIZE_MAX` tokens, because with one more the (`SIZE_MAX`+1)-th token would wrap `pos` to 0 before `eof` (`FramelessLex.WrapLooksLikeEnd`).
- StutterLex.BeginReportsError: requires fewer pending characters than `SIZE_MAX`, because the error comes at most one step per pending character after `begin()` and `pos` must not wrap to the end value first.
- FramelessLex.BeginReportsError: requires fewer pending characters than `SIZE_MAX`, because the error comes at most one step per pending character after `begin()` and `pos` must not wrap to the end value first.
- StutterLex.Iterator.IncrementBy: `n` is an unbounded integer; the overflow of `n--` when `n` is the smallest `int` is not modelled.
- Loops over an iterator are bounded by a `fuel` argument (`Yielded`); a loop that would run forever is not described.
- `Tokens.Render` (src/lex.hxx:69-85) has no contract of its own; its properties are the round trips `Scanner.ClassifyRender`, `Scanner.RenderRoundTrip`, `Scanner.LexRoundTrip` and `Scanner.RenderDistinguishes`.
- stutterxx/core.hxx (`static_buffer_allocator`) is memory-allocation plumbing that the lexer does not use.
- The demonstration `main` in src/frameless.cxx and its output to stdout: only its input is used, in `FramelessExamples.HelloWorldLoop`.
- Raw lexer pointers, iterator copying, `noexcept`, move construction and the `istream` template parameter are C++ lifetime and ownership details with no behaviour to verify.

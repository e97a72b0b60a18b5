/** The scanning step both lexer drafts share: classify the front of the residual
    buffer as an identifier, `(` or `)` (in that priority), emit one lexeme and keep
    the unmatched suffix; refill the buffer from the chunk source only when it is
    empty, and report end of input once both are exhausted.

    The drafts match with `std::regex_search` against `^\s*([a-zA-Z_][a-zA-Z0-9_]*)`,
    `^\s*\(` and `^\s*\)`; here the three patterns are matched by hand on ASCII.
    When none matches, the drafts' behaviour is undefined; here it is the error
    `NoMatch`, with no lexeme produced and nothing skipped. */
module Scanner {
  import opened Tokens

  /** A classification failure: the buffer whose front matches no pattern. */
  datatype LexError = NoMatch(buffer: string)

  datatype Result<T> = Ok(value: T) | Err(error: LexError)

  // ---------------------------------------------------------------------------
  // Character classes and the identifier grammar

  /** `\s` in the C locale: space, tab, line feed, vertical tab, form feed, carriage return. */
  predicate IsSpace(c: char) { c == ' ' || '\t' <= c <= '\r' }

  predicate IsIdentStart(c: char) { 'a' <= c <= 'z' || 'A' <= c <= 'Z' || c == '_' }

  predicate IsIdentChar(c: char) { IsIdentStart(c) || '0' <= c <= '9' }

  /** `[A-Za-z_][A-Za-z0-9_]*` */
  predicate IsIdentifier(s: string)
  {
    |s| > 0 && IsIdentStart(s[0]) && forall i :: 0 < i < |s| ==> IsIdentChar(s[i])
  }

  /** A lexeme the scanner can produce: identifiers carry a well-formed name. */
  predicate WellFormed(l: Lexeme) { l.Ident? ==> IsIdentifier(l.name) }

  predicate StartsLexeme(c: char) { IsIdentStart(c) || c == '(' || c == ')' }

  predicate NoSpace(s: string) { forall i :: 0 <= i < |s| ==> !IsSpace(s[i]) }

  /** What `istream >> std::string` yields: a non-empty run of non-whitespace. */
  predicate IsChunk(s: string) { s != [] && NoSpace(s) }

  predicate ValidChunks(chunks: seq<string>) { forall i :: 0 <= i < |chunks| ==> IsChunk(chunks[i]) }

  // ---------------------------------------------------------------------------
  // Prefix matching

  /** Length of the greedy `\s*` at the front of `s`. */
  function SpaceRun(s: string): (n: nat)
    ensures n <= |s|
    ensures forall i :: 0 <= i < n ==> IsSpace(s[i])
    ensures n == |s| || !IsSpace(s[n])
  {
    if s != [] && IsSpace(s[0]) then 1 + SpaceRun(s[1..]) else 0
  }

  /** The buffer after the patterns' leading `\s*`. */
  function SkipSpace(s: string): string
  {
    s[SpaceRun(s)..]
  }

  /** Length of the greedy `[A-Za-z0-9_]*` at the front of `s`. */
  function IdentRun(s: string): (n: nat)
    ensures n <= |s|
    ensures forall i :: 0 <= i < n ==> IsIdentChar(s[i])
    ensures n == |s| || !IsIdentChar(s[n])
  {
    if s != [] && IsIdentChar(s[0]) then 1 + IdentRun(s[1..]) else 0
  }

  /** One classification of the buffer's front: the lexeme and the unmatched suffix.
      Identifier is tried first, then `(`, then `)`. */
  function Classify(buf: string): (r: Result<(Lexeme, string)>)
    ensures r.Ok? ==> !r.value.0.Eof? && WellFormed(r.value.0)
    ensures r.Ok? ==> SkipSpace(buf) == Render(r.value.0) + r.value.1
    ensures r.Ok? ==> |r.value.1| < |buf|
    ensures r.Ok? && r.value.0.Ident? ==> r.value.1 == [] || !IsIdentChar(r.value.1[0])
    ensures r.Err? <==> SkipSpace(buf) == [] || !StartsLexeme(SkipSpace(buf)[0])
    ensures r.Err? ==> r.error == NoMatch(buf)
  {
    var s := SkipSpace(buf);
    if s != [] && IsIdentStart(s[0]) then
      var n := 1 + IdentRun(s[1..]);
      assert s[..n] == [s[0]] + s[1..][..n - 1];
      assert s == s[..n] + s[n..];
      Ok((Ident(s[..n]), s[n..]))
    else if s != [] && s[0] == '(' then
      assert s == "(" + s[1..];
      Ok((LParen, s[1..]))
    else if s != [] && s[0] == ')' then
      assert s == ")" + s[1..];
      Ok((RParen, s[1..]))
    else
      Err(NoMatch(buf))
  }

  /** The greedy run stops exactly where the identifier characters stop. */
  lemma {:induction false} IdentRunOf(w: string, rest: string)
    requires forall i :: 0 <= i < |w| ==> IsIdentChar(w[i])
    requires rest == [] || !IsIdentChar(rest[0])
    ensures IdentRun(w + rest) == |w|
  {
    if w == [] {
      assert w + rest == rest;
    } else {
      var s := w + rest;
      assert s[0] == w[0];
      assert s[1..] == w[1..] + rest;
      forall i | 0 <= i < |w[1..]| ensures IsIdentChar(w[1..][i]) {
        assert w[1..][i] == w[i + 1];
      }
      IdentRunOf(w[1..], rest);
    }
  }

  /** Classification is complete and unique: whenever the buffer (after leading
      whitespace) is the text of a lexeme followed by `rest`, and an identifier
      is not followed by a further identifier character, `Classify` returns
      exactly that lexeme and that rest. */
  lemma ClassifyUnique(buf: string, l: Lexeme, rest: string)
    requires !l.Eof? && WellFormed(l)
    requires SkipSpace(buf) == Render(l) + rest
    requires l.Ident? ==> rest == [] || !IsIdentChar(rest[0])
    ensures Classify(buf) == Ok((l, rest))
  {
    var s := SkipSpace(buf);
    match l
    case Ident(w) =>
      IdentPrefix(s, w, rest);
    case LParen =>
      assert s[0] == '(' && s[1..] == rest;
    case RParen =>
      assert s[0] == ')' && s[1..] == rest;
  }

  /** The identifier branch of `ClassifyUnique`, on the buffer after whitespace. */
  lemma IdentPrefix(s: string, w: string, rest: string)
    requires IsIdentifier(w) && s == w + rest
    requires rest == [] || !IsIdentChar(rest[0])
    ensures s != [] && IsIdentStart(s[0])
    ensures 1 + IdentRun(s[1..]) == |w|
    ensures s[..|w|] == w && s[|w|..] == rest
  {
    assert s[0] == w[0];
    assert s[1..] == w[1..] + rest;
    forall i | 0 <= i < |w[1..]| ensures IsIdentChar(w[1..][i]) {
      assert w[1..][i] == w[i + 1];
    }
    IdentRunOf(w[1..], rest);
  }

  /** Classifying a rendered lexeme gives it back and consumes the whole text. */
  lemma ClassifyRender(l: Lexeme)
    requires !l.Eof? && WellFormed(l)
    ensures Classify(Render(l)) == Ok((l, []))
  {
    assert Render(l) + [] == Render(l);
    assert Render(l)[0] != ' ' && !IsSpace(Render(l)[0]);
    ClassifyUnique(Render(l), l, []);
  }

  /** Display texts tell the lexemes the scanner produces apart, with one
      exception: end of input and the identifier `eof` render alike. */
  lemma RenderDistinguishes(a: Lexeme, b: Lexeme)
    requires WellFormed(a) && WellFormed(b)
    requires Render(a) == Render(b) && a != b
    ensures (a == Eof && b == Ident("eof")) || (a == Ident("eof") && b == Eof)
  {
    if a.Ident? {
      assert IsIdentStart(a.name[0]);
    } else if b.Ident? {
      assert IsIdentStart(b.name[0]);
    }
  }

  /** The display text of end of input is itself an identifier: it lexes back as
      `Ident("eof")`, not as `Eof`. */
  lemma RenderedEofRelexesAsIdent()
    ensures Classify(Render(Eof)) == Ok((Ident("eof"), []))
  {
    assert IsIdentifier("eof");
    ClassifyRender(Ident("eof"));
  }

  // ---------------------------------------------------------------------------
  // One lexer step over a chunk source

  /** The outcome of one step: what is emitted, and the new buffer and source cursor. */
  datatype Step = Step(result: Result<Lexeme>, buffer: string, next: nat)

  /** The buffer is empty and the source has no further chunk. */
  predicate Exhausted(chunks: seq<string>, buffer: string, next: nat)
  {
    buffer == [] && next == |chunks|
  }

  /** The buffer a step classifies: the residual one, or the next chunk when it is empty. */
  function Refilled(chunks: seq<string>, buffer: string, next: nat): string
  {
    if buffer == [] && next < |chunks| then chunks[next] else buffer
  }

  /** One step: `lex::get` in stutterxx, the scanning half of `iterator::operator++`
      in the frameless draft. */
  function Scan(chunks: seq<string>, buffer: string, next: nat): (st: Step)
    ensures next <= |chunks| ==> st.next <= |chunks|
    ensures st.result == Ok(Eof) <==> Exhausted(chunks, buffer, next)
    ensures st.result == Ok(Eof) ==> st.buffer == buffer && st.next == next
    ensures st.result.Ok? && !st.result.value.Eof? ==>
              WellFormed(st.result.value)
              && SkipSpace(Refilled(chunks, buffer, next)) == Render(st.result.value) + st.buffer
    ensures st.result.Err? ==>
              st.result.error == NoMatch(Refilled(chunks, buffer, next))
              && st.buffer == Refilled(chunks, buffer, next)
  {
    if Exhausted(chunks, buffer, next) then
      Step(Ok(Eof), buffer, next)
    else
      var b := Refilled(chunks, buffer, next);
      var n := if buffer == [] then next + 1 else next;
      match Classify(b)
      case Ok((l, rest)) => Step(Ok(l), rest, n)
      case Err(e) => Step(Err(e), b, n)
  }

  /** End of input is terminal: a step from an exhausted state emits `Eof` and
      leaves the state as it was, so every later step does the same. */
  lemma ScanEofIsTerminal(chunks: seq<string>, buffer: string, next: nat)
    requires Exhausted(chunks, buffer, next)
    ensures Scan(chunks, buffer, next) == Step(Ok(Eof), buffer, next)
  {
  }

  /** A classification failure is reported again, unchanged, by every later step:
      nothing is skipped and no retry changes the outcome. */
  lemma ScanErrorSticky(chunks: seq<string>, buffer: string, next: nat)
    requires ValidChunks(chunks) && next <= |chunks|
    requires Scan(chunks, buffer, next).result.Err?
    ensures var st := Scan(chunks, buffer, next);
            Scan(chunks, st.buffer, st.next) == st
  {
    var st := Scan(chunks, buffer, next);
    var b := Refilled(chunks, buffer, next);
    assert b != [] by {
      if buffer == [] {
        assert IsChunk(chunks[next]);
      }
    }
    assert Refilled(chunks, st.buffer, st.next) == b;
  }

  // ---------------------------------------------------------------------------
  // Reference semantics: the whole input lexed at once

  function Cons(l: Lexeme, r: Result<seq<Lexeme>>): Result<seq<Lexeme>>
  {
    match r
    case Ok(ts) => Ok([l] + ts)
    case Err(e) => Err(e)
  }

  /** Concatenation of two lexings; the first error wins. */
  function Append(a: Result<seq<Lexeme>>, b: Result<seq<Lexeme>>): Result<seq<Lexeme>>
  {
    match a
    case Err(e) => Err(e)
    case Ok(xs) =>
      match b
      case Err(e) => Err(e)
      case Ok(ys) => Ok(xs + ys)
  }

  /** The lexemes' display texts, written one after the other. */
  function Spell(ts: seq<Lexeme>): string
  {
    if ts == [] then [] else Render(ts[0]) + Spell(ts[1..])
  }

  /** The chunks written one after the other, whitespace dropped. */
  function Join(chunks: seq<string>): string
  {
    if chunks == [] then [] else chunks[0] + Join(chunks[1..])
  }

  /** Each lexeme's display text as a chunk of its own: what the stream yields for
      the rendered lexemes joined by single spaces. */
  function Renders(ts: seq<Lexeme>): seq<string>
  {
    if ts == [] then [] else [Render(ts[0])] + Renders(ts[1..])
  }

  predicate AllProducible(ts: seq<Lexeme>)
  {
    forall i :: 0 <= i < |ts| ==> !ts[i].Eof? && WellFormed(ts[i])
  }

  lemma SpellAppend(xs: seq<Lexeme>, ys: seq<Lexeme>)
    ensures Spell(xs + ys) == Spell(xs) + Spell(ys)
  {
    if xs == [] {
      assert xs + ys == ys;
    } else {
      assert (xs + ys)[0] == xs[0];
      assert (xs + ys)[1..] == xs[1..] + ys;
      SpellAppend(xs[1..], ys);
    }
  }

  /** Lexing one buffer to its end: classify, keep the rest, repeat. */
  function LexChunk(s: string): (r: Result<seq<Lexeme>>)
    ensures r.Ok? ==> AllProducible(r.value)
    decreases |s|
  {
    if s == [] then Ok([])
    else
      match Classify(s)
      case Err(e) => Err(e)
      case Ok((l, rest)) => Cons(l, LexChunk(rest))
  }

  /** One round of `LexChunk`: the first lexeme, then whatever the rest lexes to. */
  lemma LexChunkStep(s: string, l: Lexeme, rest: string)
    requires s != [] && Classify(s) == Ok((l, rest))
    ensures LexChunk(s) == Cons(l, LexChunk(rest))
  {
  }

  /** Lexing every chunk of the source in order. */
  function LexAll(chunks: seq<string>): (r: Result<seq<Lexeme>>)
    ensures r.Ok? ==> AllProducible(r.value)
  {
    if chunks == [] then Ok([]) else Append(LexChunk(chunks[0]), LexAll(chunks[1..]))
  }

  /** What is still to be produced from a lexer state: the rest of the buffer,
      then the chunks not yet read. */
  function Remaining(chunks: seq<string>, buffer: string, next: nat): Result<seq<Lexeme>>
    requires next <= |chunks|
  {
    Append(LexChunk(buffer), LexAll(chunks[next..]))
  }

  /** Characters not yet consumed: the buffer and every unread chunk. */
  function Pending(chunks: seq<string>, buffer: string, next: nat): nat
    requires next <= |chunks|
  {
    |buffer| + |Join(chunks[next..])|
  }

  lemma AppendCons(l: Lexeme, a: Result<seq<Lexeme>>, b: Result<seq<Lexeme>>)
    ensures Append(Cons(l, a), b) == Cons(l, Append(a, b))
  {
    if a.Ok? && b.Ok? {
      assert [l] + a.value + b.value == [l] + (a.value + b.value);
    }
  }

  /** Before anything is read, what remains is the whole input. */
  lemma RemainingAtStart(chunks: seq<string>)
    ensures Remaining(chunks, [], 0) == LexAll(chunks)
  {
    assert chunks[0..] == chunks;
    var r := LexAll(chunks);
    if r.Ok? {
      var none: seq<Lexeme> := [];
      assert none + r.value == r.value;
    }
  }

  /** A state with an empty buffer produces what its next chunk, read into the
      buffer, produces. */
  lemma RemainingRefill(chunks: seq<string>, next: nat)
    requires next < |chunks|
    ensures Remaining(chunks, [], next) == Remaining(chunks, chunks[next], next + 1)
    ensures Pending(chunks, [], next) == Pending(chunks, chunks[next], next + 1)
  {
    assert chunks[next..][0] == chunks[next];
    assert chunks[next..][1..] == chunks[next + 1..];
    var t := LexAll(chunks[next..]);
    if t.Ok? {
      assert [] + t.value == t.value;
    }
  }

  /** The streaming step agrees with the reference semantics: a step that emits a
      lexeme removes exactly that lexeme from the front of what remains; `Eof` is
      emitted exactly when nothing remains; a step fails with exactly the error
      the reference semantics reports first. */
  lemma ScanRefinesBatch(chunks: seq<string>, buffer: string, next: nat)
    requires ValidChunks(chunks) && next <= |chunks|
    ensures var st := Scan(chunks, buffer, next);
            (st.result == Ok(Eof) <==> Remaining(chunks, buffer, next) == Ok([]))
            && (st.result.Ok? && !st.result.value.Eof? ==>
                  Remaining(chunks, buffer, next)
                  == Cons(st.result.value, Remaining(chunks, st.buffer, st.next)))
            && (st.result.Err? ==> Remaining(chunks, buffer, next) == Err(st.result.error))
  {
    var st := Scan(chunks, buffer, next);
    if Exhausted(chunks, buffer, next) {
      assert chunks[next..] == [];
      assert LexChunk(buffer) == Ok([]) && LexAll(chunks[next..]) == Ok([]);
      var none: seq<Lexeme> := [];
      assert none + none == none;
      return;
    }
    var b := Refilled(chunks, buffer, next);
    var n := if buffer == [] then next + 1 else next;
    if buffer == [] {
      RemainingRefill(chunks, next);
      assert IsChunk(chunks[next]);
    }
    assert Remaining(chunks, buffer, next) == Remaining(chunks, b, n);
    assert b != [];
    match Classify(b)
    case Ok((l, rest)) =>
      assert LexChunk(b) == Cons(l, LexChunk(rest));
      AppendCons(l, LexChunk(rest), LexAll(chunks[n..]));
    case Err(e) =>
  }

  /** Every step that emits a lexeme consumes at least one pending character. */
  lemma ScanShrinks(chunks: seq<string>, buffer: string, next: nat)
    requires next <= |chunks|
    requires Scan(chunks, buffer, next).result.Ok?
    requires !Scan(chunks, buffer, next).result.value.Eof?
    ensures var st := Scan(chunks, buffer, next);
            Pending(chunks, st.buffer, st.next) < Pending(chunks, buffer, next)
  {
    if buffer == [] {
      RemainingRefill(chunks, next);
    }
  }

  // ---------------------------------------------------------------------------
  // Round trips between lexing and rendering

  /** A lexeme's display text, as a chunk of its own, lexes to that lexeme alone. */
  lemma LexChunkRender(l: Lexeme)
    requires !l.Eof? && WellFormed(l)
    ensures IsChunk(Render(l))
    ensures LexChunk(Render(l)) == Ok([l])
  {
    ClassifyRender(l);
    assert LexChunk([]) == Ok([]);
    assert [l] + [] == [l];
    match l
    case Ident(w) =>
    case LParen =>
    case RParen =>
  }

  /** Rendering lexes back: a stream whose chunks are the lexemes' display texts
      is valid input and lexes to exactly those lexemes. */
  lemma {:induction false} RenderRoundTrip(ts: seq<Lexeme>)
    requires AllProducible(ts)
    ensures ValidChunks(Renders(ts))
    ensures LexAll(Renders(ts)) == Ok(ts)
  {
    if ts != [] {
      var l := ts[0];
      assert AllProducible(ts[1..]) by {
        forall i | 0 <= i < |ts[1..]| ensures !ts[1..][i].Eof? && WellFormed(ts[1..][i]) {
          assert ts[1..][i] == ts[i + 1];
        }
      }
      RenderRoundTrip(ts[1..]);
      LexChunkRender(l);
      var cs := Renders(ts);
      assert cs == [Render(l)] + Renders(ts[1..]);
      assert cs[0] == Render(l) && cs[1..] == Renders(ts[1..]);
      assert ValidChunks(cs) by {
        forall i | 0 <= i < |cs| ensures IsChunk(cs[i]) {
          if i > 0 {
            assert cs[i] == Renders(ts[1..])[i - 1];
          }
        }
      }
      assert LexAll(cs) == Append(Ok([l]), Ok(ts[1..]));
      assert [l] + ts[1..] == ts;
    }
  }

  lemma NoSpaceSuffix(a: string, b: string)
    requires NoSpace(a + b)
    ensures NoSpace(b)
  {
    forall i | 0 <= i < |b| ensures !IsSpace(b[i]) {
      assert b[i] == (a + b)[|a| + i];
    }
  }

  /** Within one whitespace-free buffer, the display texts of its lexemes,
      written one after the other, are the buffer. */
  lemma {:induction false} LexChunkSpells(s: string)
    requires NoSpace(s) && LexChunk(s).Ok?
    ensures Spell(LexChunk(s).value) == s
    decreases |s|
  {
    if s != [] {
      var c := Classify(s);
      assert c.Ok?;
      var l, rest := c.value.0, c.value.1;
      LexChunkStep(s, l, rest);
      assert SkipSpace(s) == s;
      assert s == Render(l) + rest;
      NoSpaceSuffix(Render(l), rest);
      LexChunkSpells(rest);
      var ts := LexChunk(rest).value;
      assert LexChunk(s).value == [l] + ts;
      assert ([l] + ts)[0] == l && ([l] + ts)[1..] == ts;
    }
  }

  /** Lexing then rendering gives the input back, up to whitespace: the display
      texts of the lexemes, written one after the other, are the chunks written
      one after the other. */
  lemma {:induction false} LexRoundTrip(chunks: seq<string>)
    requires ValidChunks(chunks) && LexAll(chunks).Ok?
    ensures Spell(LexAll(chunks).value) == Join(chunks)
  {
    if chunks != [] {
      var a := LexChunk(chunks[0]);
      var b := LexAll(chunks[1..]);
      assert ValidChunks(chunks[1..]) by {
        forall i | 0 <= i < |chunks[1..]| ensures IsChunk(chunks[1..][i]) {
          assert chunks[1..][i] == chunks[i + 1];
        }
      }
      assert IsChunk(chunks[0]);
      LexChunkSpells(chunks[0]);
      LexRoundTrip(chunks[1..]);
      SpellAppend(a.value, b.value);
    }
  }

  // ---------------------------------------------------------------------------
  // Worked inputs

  lemma ClassifyIdent(buf: string, w: string, rest: string)
    requires IsIdentifier(w) && buf == w + rest
    requires rest == [] || !IsIdentChar(rest[0])
    ensures Classify(buf) == Ok((Ident(w), rest))
  {
    assert buf[0] == w[0];
    ClassifyUnique(buf, Ident(w), rest);
  }

  lemma ClassifyParen(buf: string, l: Lexeme, rest: string)
    requires l == LParen || l == RParen
    requires buf == Render(l) + rest
    ensures Classify(buf) == Ok((l, rest))
  {
    assert buf[0] == Render(l)[0];
    ClassifyUnique(buf, l, rest);
  }

  /** A buffer holding an identifier and then `rest` lexes to that identifier,
      then to what `rest` lexes to. */
  lemma LexIdentThen(s: string, w: string, rest: string, ts: seq<Lexeme>)
    requires IsIdentifier(w) && s == w + rest
    requires rest == [] || !IsIdentChar(rest[0])
    requires LexChunk(rest) == Ok(ts)
    ensures LexChunk(s) == Ok([Ident(w)] + ts)
  {
    ClassifyIdent(s, w, rest);
    LexChunkStep(s, Ident(w), rest);
  }

  /** A buffer holding a parenthesis and then `rest` lexes to that parenthesis,
      then to what `rest` lexes to. */
  lemma LexParenThen(s: string, l: Lexeme, rest: string, ts: seq<Lexeme>)
    requires l == LParen || l == RParen
    requires s == Render(l) + rest
    requires LexChunk(rest) == Ok(ts)
    ensures LexChunk(s) == Ok([l] + ts)
  {
    ClassifyParen(s, l, rest);
    LexChunkStep(s, l, rest);
  }
}

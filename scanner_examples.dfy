/** Worked examples of the batch lexer: the shapes of input from the
    program's own usage, over arbitrary identifiers. */
module ScannerExamples {
  import opened Tokens
  import opened Scanner

  /** A closing parenthesis on its own. */
  lemma LexClose(s: string)
    requires s == ")"
    ensures LexChunk(s) == Ok([RParen])
  {
    var none: seq<Lexeme> := [];
    assert [RParen] + none == [RParen];
    LexParenThen(s, RParen, "", none);
  }

  /** An identifier directly followed by a closing parenthesis. */
  lemma LexWordClose(s: string, w: string)
    requires IsIdentifier(w) && s == w + ")"
    ensures LexChunk(s) == Ok([Ident(w), RParen])
  {
    var one := [RParen];
    assert [Ident(w)] + one == [Ident(w), RParen];
    LexClose(s[|w|..]);
    LexIdentThen(s, w, s[|w|..], one);
  }

  /** A parenthesised identifier such as "(world)" lexes to three lexemes. */
  lemma LexParenthesised(s: string, w: string)
    requires IsIdentifier(w) && s == "(" + w + ")"
    ensures LexChunk(s) == Ok([LParen, Ident(w), RParen])
  {
    var two := [Ident(w), RParen];
    assert [LParen] + two == [LParen, Ident(w), RParen];
    var r := w + ")";
    assert s == Render(LParen) + r;
    LexWordClose(r, w);
    LexParenThen(s, LParen, r, two);
  }

  /** A chunk that is one identifier, such as "hello", lexes to that identifier. */
  lemma LexWord(w: string)
    requires IsIdentifier(w)
    ensures LexChunk(w) == Ok([Ident(w)])
  {
    var none: seq<Lexeme> := [];
    assert [Ident(w)] + none == [Ident(w)];
    assert w + "" == w;
    LexIdentThen(w, w, "", none);
  }

  /** "hello (world)" is read as the chunks "hello" and "(world)", which lex
      to an identifier, a parenthesis, an identifier and a parenthesis. */
  lemma HelloWorld(a: string, b: string, chunks: seq<string>)
    requires IsIdentifier(a) && IsIdentifier(b)
    requires chunks == [a, "(" + b + ")"]
    ensures LexAll(chunks) == Ok([Ident(a), LParen, Ident(b), RParen])
  {
    var none: seq<Lexeme> := [];
    var three := [LParen, Ident(b), RParen];
    assert three + none == three;
    assert [Ident(a)] + three == [Ident(a), LParen, Ident(b), RParen];
    LexWord(a);
    LexParenthesised(chunks[1], b);
    assert chunks[1..][1..] == [];
    assert LexAll(chunks[1..]) == Ok(three);
  }

  /** An identifier applied to a parenthesised identifier, "foo(bar)", with
      no whitespace in between. */
  lemma LexCall(s: string, a: string, b: string)
    requires IsIdentifier(a) && IsIdentifier(b)
    requires s == a + ("(" + b + ")")
    ensures LexChunk(s) == Ok([Ident(a), LParen, Ident(b), RParen])
  {
    var three := [LParen, Ident(b), RParen];
    assert [Ident(a)] + three == [Ident(a), LParen, Ident(b), RParen];
    var r := "(" + b + ")";
    assert r[0] == '(';
    LexParenthesised(r, b);
    LexIdentThen(s, a, r, three);
  }

  /** Parentheses need no whitespace around them: "foo(bar)" is one chunk
      and four lexemes. */
  lemma Adjacency(a: string, b: string, chunks: seq<string>)
    requires IsIdentifier(a) && IsIdentifier(b)
    requires chunks == [a + "(" + b + ")"]
    ensures LexAll(chunks) == Ok([Ident(a), LParen, Ident(b), RParen])
  {
    var none: seq<Lexeme> := [];
    var four := [Ident(a), LParen, Ident(b), RParen];
    assert four + none == four;
    assert chunks[0] == a + ("(" + b + ")");
    LexCall(chunks[0], a, b);
    assert chunks[1..] == [];
  }

  /** An illegal character, as in "foo$bar", is a failure at that character,
      not a skipped one: the identifier before it is lexed, then the rest of
      the chunk from the offending character on is reported. */
  lemma IllegalCharacter(a: string, rest: string, chunks: seq<string>)
    requires IsIdentifier(a) && rest != []
    requires !IsIdentChar(rest[0]) && !StartsLexeme(rest[0]) && !IsSpace(rest[0])
    requires chunks == [a + rest]
    ensures LexAll(chunks) == Err(NoMatch(rest))
  {
    ClassifyIdent(a + rest, a, rest);
    LexChunkStep(a + rest, Ident(a), rest);
    assert SpaceRun(rest) == 0;
    assert Classify(rest) == Err(NoMatch(rest));
    assert LexChunk(a + rest) == Err(NoMatch(rest));
    assert chunks[1..] == [];
  }
}

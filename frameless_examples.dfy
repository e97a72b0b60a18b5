/** Worked examples of the frameless lexer's iteration loop, over the
    demonstration program's input shape. */
module FramelessExamples {
  import opened Tokens
  import opened Scanner
  import opened ScannerExamples
  import opened FramelessLex

  /** The demonstration program's input, "hello (world)", read as the chunks
      "hello" and "(world)": the loop dereferences `ident`, `lparen`, `ident`,
      `rparen`, and then reaches `end()`. */
  lemma HelloWorldLoop(a: string, b: string, chunks: seq<string>, fuel: nat)
    requires IsIdentifier(a) && IsIdentifier(b)
    requires chunks == [a, "(" + b + ")"] && fuel >= 4
    ensures Yielded(PreIncrement(chunks), Begin(chunks), fuel)
            == [Ok(Ident(a)), Ok(LParen), Ok(Ident(b)), Ok(RParen)]
  {
    var ts := [Ident(a), LParen, Ident(b), RParen];
    HelloWorld(a, b, chunks);
    assert IsChunk(chunks[0]) && IsChunk(chunks[1]) by {
      assert NoSpace(chunks[1]) by {
        forall i | 0 <= i < |chunks[1]| ensures !IsSpace(chunks[1][i]) {
          if 0 < i < |chunks[1]| - 1 {
            assert chunks[1][i] == b[i - 1];
          }
        }
      }
    }
    BeginYields(chunks, ts, fuel);
  }
}

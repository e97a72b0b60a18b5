/** The token model shared by both lexer drafts.

    `Lexeme` is the closed four-way variant `token::variant` of stutterxx;
    the frameless draft's `lexeme` has the same four alternatives in another
    order, so `Index` below is the stutterxx order only. `Token` is the
    stutterxx `token` class, which stores one alternative and converts back
    to it. */
module Tokens {

  /** Exactly one of the four alternatives; only `Ident` carries a payload. */
  datatype Lexeme = Eof | Ident(name: string) | LParen | RParen

  /** The alternative's position in `std::variant<eof, ident, lparen, rparen>`,
      that is, what `variant::index()` reports. */
  function Index(l: Lexeme): (i: nat)
    ensures i < 4
    ensures l.Eof? <==> i == 0
    ensures l.Ident? <==> i == 1
    ensures l.LParen? <==> i == 2
    ensures l.RParen? <==> i == 3
  {
    match l
    case Eof => 0
    case Ident(_) => 1
    case LParen => 2
    case RParen => 3
  }

  /** Display text of a lexeme (the frameless draft's `operator std::string`):
      the identifier's own text, a parenthesis, or the word "eof". */
  function Render(l: Lexeme): string
  {
    match l
    case Eof => "eof"
    case Ident(name) => name
    case LParen => "("
    case RParen => ")"
  }

  /** The stutterxx `token`: a value holding one alternative. */
  datatype Token = Token(v: Lexeme)
  {
    /** `operator variant`: a const query returning the stored alternative. */
    function ToVariant(): (a: Lexeme)
      ensures Of(a) == this
    {
      v
    }
  }

  /** The converting constructors `token(const token_type &)` and `token(token_type &&)`. */
  function Of(a: Lexeme): (t: Token)
    ensures t.v == a
  {
    Token(a)
  }

  /** Constructing from an alternative and converting back gives that alternative. */
  lemma VariantRoundTrip(a: Lexeme)
    ensures Of(a).ToVariant() == a
  {
  }

  /** A token built from `ident(name)` still carries exactly `name`. */
  lemma IdentKeepsName(name: string)
    ensures Of(Ident(name)).ToVariant().Ident?
    ensures Of(Ident(name)).ToVariant().name == name
  {
  }

  /** The payload-free alternatives cannot be told apart: same index means same value. */
  lemma PayloadFreeAlternativesEqual(a: Lexeme, b: Lexeme)
    requires Index(a) == Index(b) && !a.Ident?
    ensures a == b
  {
  }

  /** Tokens holding different alternatives are different tokens, and conversely. */
  lemma TokenEqualityIsVariantEquality(s: Token, t: Token)
    ensures s == t <==> s.ToVariant() == t.ToVariant()
  {
  }
}

/** The stutterxx draft of the streaming lexer (`stutterxx::lex`): the lexer owns
    the source and a residual buffer, and hands out input iterators that each
    hold a token counter `pos` and the current token. */
module StutterLex {
  import opened Platform
  import opened Tokens
  import opened Scanner
  import opened Stream
  import opened Iteration

  /** A step's outcome as the stutterxx lexer reports it: a `token`, or the
      error that replaces the undefined no-match path. */
  function Lift(r: Result<Lexeme>): (t: Result<Token>)
    ensures t.Ok? <==> r.Ok?
    ensures t.Ok? ==> t.value.ToVariant() == r.value
    ensures t.Err? ==> t.error == r.error
  {
    match r
    case Ok(l) => Ok(Of(l))
    case Err(e) => Err(e)
  }

  /** Lexemes as the tokens a consumer dereferences, one by one. */
  function Lifts(ts: seq<Lexeme>): (rs: seq<Result<Token>>)
    ensures |rs| == |ts|
    ensures forall i :: 0 <= i < |ts| ==> rs[i] == Ok(Of(ts[i]))
  {
    if ts == [] then [] else [Ok(Of(ts[0]))] + Lifts(ts[1..])
  }

  // ---------------------------------------------------------------------------
  // Iteration as a function of the state

  /** What an iterator attached to a lexer sees: the lexer's buffer and source
      cursor, and the iterator's own `pos` and `cur`. */
  datatype State = State(buffer: string, next: nat, pos: Size, cur: Result<Token>)

  /** The source cursor is within the source. */
  predicate Fits(chunks: seq<string>, s: State)
  {
    s.next <= |chunks|
  }

  /** `iterator(lexer)`: one `get` from the lexer as it stands, and a count of zero. */
  function Start(chunks: seq<string>, buffer: string, next: nat): (s: State)
    requires next <= |chunks|
    ensures Fits(chunks, s) && s.pos == 0
    ensures s.cur == Ok(Of(Eof)) <==> Exhausted(chunks, buffer, next)
  {
    var st := Scan(chunks, buffer, next);
    State(st.buffer, st.next, 0, Lift(st.result))
  }

  /** `++it` on an iterator attached to a lexer: the next token, and `pos` sent
      to the end value on `eof`, counted up (modulo 2^64) otherwise. */
  function Advance(chunks: seq<string>, s: State): (t: State)
    ensures Fits(chunks, s) ==> Fits(chunks, t)
  {
    var st := Scan(chunks, s.buffer, s.next);
    var cur := Lift(st.result);
    var pos := if cur.Ok? && cur.value.ToVariant().Eof? then SizeMax else SizeInc(s.pos);
    State(st.buffer, st.next, pos, cur)
  }

  /** `++it` as a transition of the iterator's state over a fixed source. */
  function PreIncrement(chunks: seq<string>): State -> State
  {
    s => Advance(chunks, s)
  }

  /** `++it` sends `pos` to the end value exactly when the input is used up,
      and then leaves the lexer as it was; otherwise it counts one more. */
  lemma AdvanceSpec(chunks: seq<string>, s: State)
    ensures var t := Advance(chunks, s);
            (t.cur == Ok(Of(Eof)) <==> Exhausted(chunks, s.buffer, s.next))
            && (t.cur == Ok(Of(Eof)) ==> t.pos == SizeMax && t.buffer == s.buffer && t.next == s.next)
            && (t.cur != Ok(Of(Eof)) ==> t.pos == SizeInc(s.pos))
  {
  }

  /** Once `eof` is the current token, `++it` changes nothing more. */
  lemma EofIsIdempotent(chunks: seq<string>, s: State)
    requires Advance(chunks, s).cur == Ok(Of(Eof))
    ensures Advance(chunks, Advance(chunks, s)) == Advance(chunks, s)
  {
  }

  /** One `++it` against the reference lexing: with nothing left the iterator
      moves to the end value; otherwise it moves to the next lexeme, which is
      no longer among what remains. */
  lemma AdvanceOk(chunks: seq<string>, s: State, ts: seq<Lexeme>)
    requires ValidChunks(chunks) && Fits(chunks, s)
    requires Remaining(chunks, s.buffer, s.next) == Ok(ts)
    ensures var t := Advance(chunks, s);
            (ts == [] ==> t.pos == SizeMax && t.cur == Ok(Of(Eof)))
            && (ts != [] ==>
                  t.cur == Ok(Of(ts[0])) && t.pos == SizeInc(s.pos)
                  && Remaining(chunks, t.buffer, t.next) == Ok(ts[1..]))
  {
    AdvanceSpec(chunks, s);
    ScanRefinesBatch(chunks, s.buffer, s.next);
  }

  /** One `++it` against a reference lexing that fails: the iterator reports the
      error now, or moves past a lexeme with the same error still ahead and less
      input pending. */
  lemma AdvanceErr(chunks: seq<string>, s: State, e: LexError)
    requires ValidChunks(chunks) && Fits(chunks, s)
    requires Remaining(chunks, s.buffer, s.next) == Err(e)
    ensures var t := Advance(chunks, s);
            t.pos == SizeInc(s.pos)
            && (t.cur == Err(e)
                || (t.cur.Ok? && Remaining(chunks, t.buffer, t.next) == Err(e)
                    && Pending(chunks, t.buffer, t.next) < Pending(chunks, s.buffer, s.next)))
  {
    var st := Scan(chunks, s.buffer, s.next);
    AdvanceSpec(chunks, s);
    ScanRefinesBatch(chunks, s.buffer, s.next);
    if st.result.Ok? {
      ScanShrinks(chunks, s.buffer, s.next);
    }
  }

  /** Counting wraps: after 2^64 - 1 tokens the counter reaches the end value
      although the token just produced is not `eof`, so the iterator compares
      equal to `end()` with input left. */
  lemma WrapLooksLikeEnd(chunks: seq<string>, s: State)
    requires s.pos == SizeMax - 1
    requires !Exhausted(chunks, s.buffer, s.next)
    ensures Advance(chunks, s).pos == SizeMax
    ensures Advance(chunks, s).cur != Ok(Of(Eof))
  {
  }

  // ---------------------------------------------------------------------------
  // What a loop over the iterator sees, for any transition `step`

  /** The tokens a loop `for (it = begin; it != end(); step(it))` dereferences,
      at most `fuel` of them: it stops once `pos` holds the end value. */
  function Yielded(step: State -> State, s: State, fuel: nat): seq<Result<Token>>
    decreases fuel
  {
    if fuel == 0 || s.pos == SizeMax then []
    else [s.cur] + Yielded(step, step(s), fuel - 1)
  }

  /** `step` produces the lexemes `ts` next, one per step and each counted, and
      the step after them sends the iterator to the end value. */
  predicate Produces(step: State -> State, s: State, ts: seq<Lexeme>)
    decreases ts
  {
    var t := step(s);
    if ts == [] then t.pos == SizeMax
    else t.cur == Ok(Of(ts[0])) && t.pos == SizeInc(s.pos) && Produces(step, t, ts[1..])
  }

  /** From a state that is not at the end, with `ts` still to come and room in
      `pos` to count them, the loop yields the current token, then exactly
      `ts`, then stops at the end. */
  lemma {:induction false} Drain(step: State -> State, s: State, ts: seq<Lexeme>, fuel: nat)
    requires Produces(step, s, ts)
    requires s.pos + |ts| < SizeMax
    requires fuel > |ts|
    ensures Yielded(step, s, fuel) == [s.cur] + Lifts(ts)
    decreases ts
  {
    var t := step(s);
    if ts == [] {
      assert Yielded(step, t, fuel - 1) == [];
    } else {
      Drain(step, t, ts[1..], fuel - 1);
      assert Lifts(ts) == [t.cur] + Lifts(ts[1..]);
    }
  }

  /** Within `k` steps, `step` reaches the error `e`, counting every step. */
  predicate ErrorWithin(step: State -> State, s: State, e: LexError, k: nat)
    decreases k
  {
    var t := step(s);
    k > 0 && t.pos == SizeInc(s.pos) && (t.cur == Err(e) || ErrorWithin(step, t, e, k - 1))
  }

  /** An error reached within `k` counted steps is dereferenced by the loop,
      given room in `pos` and in the fuel. */
  lemma {:induction false} ErrorYielded(step: State -> State, s: State, e: LexError, k: nat, fuel: nat)
    requires ErrorWithin(step, s, e, k)
    requires s.pos + k < SizeMax && fuel > k
    ensures Err(e) in Yielded(step, s, fuel)
    decreases k
  {
    var t := step(s);
    assert Yielded(step, s, fuel) == [s.cur] + Yielded(step, t, fuel - 1);
    if t.cur == Err(e) {
      assert Yielded(step, t, fuel - 1) == [t.cur] + Yielded(step, step(t), fuel - 2);
    } else {
      ErrorYielded(step, t, e, k - 1, fuel - 1);
    }
  }

  // ---------------------------------------------------------------------------
  // `++it` against the reference lexing

  /** What remains to be lexed is what `++it` goes on to produce. */
  lemma {:induction false} RemainingProduces(chunks: seq<string>, s: State, ts: seq<Lexeme>)
    requires ValidChunks(chunks) && Fits(chunks, s)
    requires Remaining(chunks, s.buffer, s.next) == Ok(ts)
    ensures Produces(PreIncrement(chunks), s, ts)
    decreases ts
  {
    AdvanceOk(chunks, s, ts);
    if ts != [] {
      RemainingProduces(chunks, Advance(chunks, s), ts[1..]);
    }
  }

  /** A failing reference lexing is an error `++it` reaches, within one step
      more than there are characters pending. */
  lemma {:induction false} RemainingError(chunks: seq<string>, s: State, e: LexError, k: nat)
    requires ValidChunks(chunks) && Fits(chunks, s)
    requires Remaining(chunks, s.buffer, s.next) == Err(e)
    requires k > Pending(chunks, s.buffer, s.next)
    ensures ErrorWithin(PreIncrement(chunks), s, e, k)
    decreases k
  {
    AdvanceErr(chunks, s, e);
    var t := Advance(chunks, s);
    if t.cur != Err(e) {
      RemainingError(chunks, t, e, k - 1);
    }
  }

  /** The iterator `begin()` returns from a freshly built lexer. */
  function Begin(chunks: seq<string>): State
  {
    Start(chunks, [], 0)
  }

  /** The iterator `begin()` returns holds the first lexeme, with the rest
      still to come, or `eof` with nothing left when the source is empty. */
  lemma BeginHolds(chunks: seq<string>, ts: seq<Lexeme>)
    requires ValidChunks(chunks) && LexAll(chunks) == Ok(ts)
    ensures var b := Begin(chunks);
            (ts == [] ==> b.cur == Ok(Of(Eof)) && Exhausted(chunks, b.buffer, b.next))
            && (ts != [] ==> b.cur == Ok(Of(ts[0])) && Remaining(chunks, b.buffer, b.next) == Ok(ts[1..]))
  {
    RemainingAtStart(chunks);
    ScanRefinesBatch(chunks, [], 0);
  }

  /** A loop that starts on the first of the lexemes `ts`, with the others
      still to come, yields exactly `ts`; one that starts on `eof` with the
      end next yields that `eof` once. */
  lemma {:induction false} YieldedFromStart(step: State -> State, b: State, ts: seq<Lexeme>, fuel: nat)
    requires b.pos == 0 && AllProducible(ts) && |ts| <= SizeMax && fuel > |ts|
    requires ts == [] ==> b.cur == Ok(Of(Eof)) && Produces(step, b, [])
    requires ts != [] ==> b.cur == Ok(Of(ts[0])) && Produces(step, b, ts[1..])
    ensures ts == [] ==> Yielded(step, b, fuel) == [Ok(Of(Eof))]
    ensures ts != [] ==> Yielded(step, b, fuel) == Lifts(ts)
    ensures Ok(Of(Eof)) in Yielded(step, b, fuel) <==> ts == []
  {
    if ts == [] {
      Drain(step, b, [], fuel);
    } else {
      Drain(step, b, ts[1..], fuel);
      assert Lifts(ts) == [Ok(Of(ts[0]))] + Lifts(ts[1..]);
    }
  }

  /** Iterating a fresh lexer over a source that lexes to `ts`: an empty source
      yields the `eof` token exactly once before the iterator equals `end()`;
      any other yields exactly `ts` and never `eof`. */
  lemma BeginYields(chunks: seq<string>, ts: seq<Lexeme>, fuel: nat)
    requires ValidChunks(chunks) && LexAll(chunks) == Ok(ts)
    requires |ts| <= SizeMax && fuel > |ts|
    ensures ts == [] ==> Yielded(PreIncrement(chunks), Begin(chunks), fuel) == [Ok(Of(Eof))]
    ensures ts != [] ==> Yielded(PreIncrement(chunks), Begin(chunks), fuel) == Lifts(ts)
    ensures Ok(Of(Eof)) in Yielded(PreIncrement(chunks), Begin(chunks), fuel) <==> ts == []
  {
    var b := Begin(chunks);
    BeginHolds(chunks, ts);
    if ts == [] {
      AdvanceSpec(chunks, b);
    } else {
      RemainingProduces(chunks, b, ts[1..]);
    }
    YieldedFromStart(PreIncrement(chunks), b, ts, fuel);
  }

  /** A source whose reference lexing fails: iterating a fresh lexer
      dereferences that error before it reaches `end()`, provided `pos` does
      not wrap first. */
  lemma BeginReportsError(chunks: seq<string>, e: LexError, fuel: nat)
    requires ValidChunks(chunks) && LexAll(chunks) == Err(e)
    requires Pending(chunks, [], 0) < SizeMax && fuel > Pending(chunks, [], 0)
    ensures Err(e) in Yielded(PreIncrement(chunks), Begin(chunks), fuel)
  {
    var b := Begin(chunks);
    RemainingAtStart(chunks);
    ScanRefinesBatch(chunks, [], 0);
    assert Yielded(PreIncrement(chunks), b, fuel) == [b.cur] + Yielded(PreIncrement(chunks), Advance(chunks, b), fuel - 1);
    if b.cur != Err(e) {
      ScanShrinks(chunks, [], 0);
      RemainingError(chunks, b, e, Pending(chunks, [], 0));
      ErrorYielded(PreIncrement(chunks), b, e, Pending(chunks, [], 0), fuel);
    }
  }

  // ---------------------------------------------------------------------------
  // The lexer and its iterator

  class Lexer {
    /** The stream the lexer took ownership of. */
    const source: ChunkStream
    /** Text read from the source and not yet turned into tokens. */
    var buffer: string

    ghost predicate Valid()
      reads this, source
    {
      source.Valid()
    }

    /** `lex(istream &&source)`: takes the stream; nothing is buffered yet. */
    constructor(source: ChunkStream)
      requires source.Valid()
      ensures Valid() && this.source == source && buffer == []
    {
      this.source := source;
      buffer := [];
    }

    /** `get()`: refills an empty buffer from the source, then classifies its
        front (identifier before `(` before `)`) and keeps the unmatched rest. */
    method Get() returns (r: Result<Token>)
      requires Valid()
      modifies this, source
      ensures Valid()
      ensures var st := Scan(source.chunks, old(buffer), old(source.next));
              r == Lift(st.result) && buffer == st.buffer && source.next == st.next
    {
      if buffer == [] {
        var ok, chunk := source.Read();
        if !ok {
          return Ok(Of(Eof));
        }
        buffer := chunk;
      }
      match Classify(buffer)
      case Ok((l, rest)) =>
        buffer := rest;
        r := Ok(Of(l));
      case Err(e) =>
        r := Err(e);
    }

    /** `begin()`: an iterator attached to this lexer, which has already read
        one token. */
    method Begin() returns (it: Iterator)
      requires Valid()
      modifies this, source
      ensures fresh(it) && it.lexer == this && it.Valid()
      ensures it.Snapshot() == Start(source.chunks, old(buffer), old(source.next))
    {
      it := new Iterator(this);
    }

    /** `end()`: the detached sentinel iterator, holding `eof`. */
    method End() returns (it: Iterator)
      ensures fresh(it) && it.lexer == null && it.pos == SizeMax && it.cur == Ok(Of(Eof)) && it.Valid()
    {
      it := new Iterator.Sentinel();
    }
  }

  class Iterator {
    /** The lexer this iterator pulls from; null for the `end()` sentinel. */
    const lexer: Lexer?
    /** The lexer's source, which `++it` reads from; null with the lexer. */
    ghost const stream: ChunkStream?
    /** How many tokens have been produced, or the end value once `eof` is. */
    var pos: Size
    var cur: Result<Token>

    ghost predicate Valid()
      reads this, lexer, stream
    {
      if lexer != null then stream == lexer.source && lexer.Valid() else stream == null
    }

    ghost function Snapshot(): State
      reads this, lexer, stream
      requires Valid() && lexer != null
    {
      State(lexer.buffer, lexer.source.next, pos, cur)
    }

    /** `iterator(lex *lexer)`: attaches, reads the first token, counts zero. */
    constructor(lexer: Lexer)
      requires lexer.Valid()
      modifies lexer, lexer.source
      ensures this.lexer == lexer && Valid()
      ensures Snapshot() == Start(lexer.source.chunks, old(lexer.buffer), old(lexer.source.next))
    {
      this.lexer := lexer;
      stream := lexer.source;
      pos := 0;
      var t := lexer.Get();
      cur := t;
    }

    /** `iterator()`: no lexer, the largest count, and `eof` as its token. */
    constructor Sentinel()
      ensures lexer == null && pos == SizeMax && cur == Ok(Of(Eof)) && Valid()
    {
      lexer := null;
      stream := null;
      pos := SizeMax;
      cur := Ok(Of(Eof));
    }

    /** `*it`: the current token, as the last step produced it. */
    function Current(): (t: Result<Token>)
      reads this
      ensures t == cur
    {
      cur
    }

    /** `++it`: on an attached iterator, the next token and count; on the
        sentinel, nothing. */
    method Increment()
      requires Valid()
      modifies this, lexer, stream
      ensures Valid()
      ensures lexer == null ==> pos == old(pos) && cur == old(cur)
      ensures lexer != null ==> Snapshot() == Advance(lexer.source.chunks, old(Snapshot()))
    {
      if lexer != null {
        cur := lexer.Get();
        if cur.Ok? && cur.value.ToVariant().Eof? {
          pos := SizeMax;
        } else {
          pos := SizeInc(pos);
        }
      }
    }

    /** `it++`, that is `operator++(int n)`: `++it` while `n-- > 0`, so exactly
        `n` times for a positive `n` and not at all otherwise. */
    method IncrementBy(n: int)
      requires Valid()
      modifies this, lexer, stream
      ensures Valid()
      ensures lexer == null ==> pos == old(pos) && cur == old(cur)
      ensures lexer != null ==>
                Snapshot() == Iterate(PreIncrement(lexer.source.chunks), old(Snapshot()), if n > 0 then n else 0)
    {
      ghost var s0 := if lexer != null then Snapshot() else State([], 0, 0, cur);
      ghost var done: nat := 0;
      var k := n;
      while k > 0
        invariant Valid()
        invariant done == (if n > 0 then n - k else 0)
        invariant n > 0 ==> 0 <= k <= n
        invariant n <= 0 ==> k == n
        invariant lexer == null ==> pos == old(pos) && cur == old(cur)
        invariant lexer != null ==> Snapshot() == Iterate(PreIncrement(lexer.source.chunks), s0, done)
      {
        k := k - 1;
        IncrementCounted(s0, done);
        done := done + 1;
      }
    }

    /** One round of `IncrementBy`'s loop: `++it` takes the iterator from `done`
        increments past `s0` to one more. */
    method IncrementCounted(ghost s0: State, ghost done: nat)
      requires Valid()
      requires lexer != null ==> Snapshot() == Iterate(PreIncrement(lexer.source.chunks), s0, done)
      modifies this, lexer, stream
      ensures Valid()
      ensures lexer == null ==> pos == old(pos) && cur == old(cur)
      ensures lexer != null ==> Snapshot() == Iterate(PreIncrement(lexer.source.chunks), s0, done + 1)
    {
      Increment();
      if lexer != null {
        IterateLast(PreIncrement(lexer.source.chunks), s0, done);
      }
    }

    /** `it != other`: compares the counts and nothing else. */
    function NotEqual(other: Iterator): (b: bool)
      reads this, other
      ensures b <==> pos != other.pos
    {
      pos != other.pos
    }
  }
}

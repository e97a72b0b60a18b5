/** The frameless draft of the streaming lexer (`frameless::lexer::lex`): the
    lexer only holds the input stream; each iterator owns its residual buffer,
    current lexeme and counter `pos`, and `++it` updates them in place, reading
    from the stream all iterators share. */
module FramelessLex {
  import opened Platform
  import opened Tokens
  import opened Scanner
  import opened Stream
  import opened Iteration

  /** Lexemes as a consumer dereferences them, one by one. */
  function Oks(ts: seq<Lexeme>): (rs: seq<Result<Lexeme>>)
    ensures |rs| == |ts|
    ensures forall i :: 0 <= i < |ts| ==> rs[i] == Ok(ts[i])
  {
    if ts == [] then [] else [Ok(ts[0])] + Oks(ts[1..])
  }

  // ---------------------------------------------------------------------------
  // Iteration as a function of the state

  /** An iterator's own fields, and the cursor of the stream it reads. */
  datatype State = State(buffer: string, next: nat, pos: Size, cur: Result<Lexeme>)

  /** The stream cursor is within the stream. */
  predicate Fits(chunks: seq<string>, s: State)
  {
    s.next <= |chunks|
  }

  /** `iterator(inputs)`: nothing buffered, a count of zero, and the lexeme's
      default value, its first alternative `lparen` (the `eof` argument is
      not used). */
  function Initial(next: nat): (s: State)
    ensures s.buffer == [] && s.next == next && s.pos == 0 && s.cur == Ok(LParen)
  {
    State([], next, 0, Ok(LParen))
  }

  /** `++it`: with the buffer empty and the stream exhausted, `eof` and a count
      of zero; otherwise the count goes up by one (modulo 2^64) and the buffer's
      front is classified. */
  function Advance(chunks: seq<string>, s: State): (t: State)
    ensures Fits(chunks, s) ==> Fits(chunks, t)
  {
    var st := Scan(chunks, s.buffer, s.next);
    if st.result == Ok(Eof) then State(st.buffer, st.next, 0, Ok(Eof))
    else State(st.buffer, st.next, SizeInc(s.pos), st.result)
  }

  /** `++it` as a transition of the iterator's state over a fixed stream. */
  function PreIncrement(chunks: seq<string>): State -> State
  {
    s => Advance(chunks, s)
  }

  /** `++it` resets the count to the `end()` value exactly when the input is
      used up, and then leaves buffer and stream as they were; otherwise it
      counts one more. */
  lemma AdvanceSpec(chunks: seq<string>, s: State)
    ensures var t := Advance(chunks, s);
            (t.cur == Ok(Eof) <==> Exhausted(chunks, s.buffer, s.next))
            && (t.cur == Ok(Eof) ==> t.pos == 0 && t.buffer == s.buffer && t.next == s.next)
            && (t.cur != Ok(Eof) ==> t.pos == SizeInc(s.pos))
  {
  }

  /** Once `eof` is the current lexeme, `++it` changes nothing more. */
  lemma EofIsIdempotent(chunks: seq<string>, s: State)
    requires Advance(chunks, s).cur == Ok(Eof)
    ensures Advance(chunks, Advance(chunks, s)) == Advance(chunks, s)
  {
  }

  /** One `++it` against the reference lexing: with nothing left the iterator
      becomes equal to `end()`; otherwise it moves to the next lexeme, which is
      no longer among what remains. */
  lemma AdvanceOk(chunks: seq<string>, s: State, ts: seq<Lexeme>)
    requires ValidChunks(chunks) && Fits(chunks, s)
    requires Remaining(chunks, s.buffer, s.next) == Ok(ts)
    ensures var t := Advance(chunks, s);
            (ts == [] ==> t.pos == 0 && t.cur == Ok(Eof))
            && (ts != [] ==>
                  t.cur == Ok(ts[0]) && t.pos == SizeInc(s.pos)
                  && Remaining(chunks, t.buffer, t.next) == Ok(ts[1..]))
  {
    AdvanceSpec(chunks, s);
    ScanRefinesBatch(chunks, s.buffer, s.next);
  }

  /** One `++it` against a reference lexing that fails: the iterator reports the
      error now, or moves past a lexeme with the same error still ahead and less
      input pending. */
  lemma AdvanceErr(chunks: seq<string>, s: State, e: LexError)
    requires ValidChunks(chunks) && Fits(chunks, s)
    requires Remaining(chunks, s.buffer, s.next) == Err(e)
    ensures var t := Advance(chunks, s);
            t.pos == SizeInc(s.pos)
            && (t.cur == Err(e)
                || (t.cur.Ok? && Remaining(chunks, t.buffer, t.next) == Err(e)
                    && Pending(chunks, t.buffer, t.next) < Pending(chunks, s.buffer, s.next)))
  {
    var st := Scan(chunks, s.buffer, s.next);
    AdvanceSpec(chunks, s);
    ScanRefinesBatch(chunks, s.buffer, s.next);
    if st.result.Ok? {
      ScanShrinks(chunks, s.buffer, s.next);
    }
  }

  /** Counting wraps: after 2^64 - 1 increments the counter returns to zero
      although a lexeme was just produced, so the iterator compares equal to
      `end()` with input left. */
  lemma WrapLooksLikeEnd(chunks: seq<string>, s: State)
    requires s.pos == SizeMax
    requires !Exhausted(chunks, s.buffer, s.next)
    ensures Advance(chunks, s).pos == 0
    ensures Advance(chunks, s).cur != Ok(Eof)
  {
  }

  // ---------------------------------------------------------------------------
  // What a loop over the iterator sees, for any transition `step`

  /** The lexemes a loop `for (it = begin; it != end(); step(it))` dereferences,
      at most `fuel` of them: it stops once `pos` is zero, the count `end()` has. */
  function Yielded(step: State -> State, s: State, fuel: nat): seq<Result<Lexeme>>
    decreases fuel
  {
    if fuel == 0 || s.pos == 0 then []
    else [s.cur] + Yielded(step, step(s), fuel - 1)
  }

  /** `step` produces the lexemes `ts` next, one per step and each counted, and
      the step after them resets the count to the `end()` value. */
  predicate Produces(step: State -> State, s: State, ts: seq<Lexeme>)
    decreases ts
  {
    var t := step(s);
    if ts == [] then t.pos == 0
    else t.cur == Ok(ts[0]) && t.pos == SizeInc(s.pos) && Produces(step, t, ts[1..])
  }

  /** From a state that is not at the end, with `ts` still to come and room in
      `pos` to count them, the loop yields the current lexeme, then exactly
      `ts`, then stops at the end. */
  lemma {:induction false} Drain(step: State -> State, s: State, ts: seq<Lexeme>, fuel: nat)
    requires Produces(step, s, ts)
    requires 0 < s.pos && s.pos + |ts| <= SizeMax
    requires fuel > |ts|
    ensures Yielded(step, s, fuel) == [s.cur] + Oks(ts)
    decreases ts
  {
    var t := step(s);
    if ts == [] {
      assert Yielded(step, t, fuel - 1) == [];
    } else {
      Drain(step, t, ts[1..], fuel - 1);
      assert Oks(ts) == [t.cur] + Oks(ts[1..]);
    }
  }

  /** A loop started by one `step` from a zero count yields exactly the lexemes
      `step` produces from there; it yields nothing, the first iterator equal
      to the end, exactly when there are none. */
  lemma {:induction false} YieldedFromStart(step: State -> State, s: State, ts: seq<Lexeme>, fuel: nat)
    requires s.pos == 0 && Produces(step, s, ts)
    requires |ts| <= SizeMax && fuel >= |ts|
    ensures Yielded(step, step(s), fuel) == Oks(ts)
    ensures step(s).pos == 0 <==> ts == []
  {
    var b := step(s);
    if ts != [] {
      Drain(step, b, ts[1..], fuel);
      assert Oks(ts) == [b.cur] + Oks(ts[1..]);
    }
  }

  /** `step` only ever produces `eof` together with the `end()` count. */
  ghost predicate EndsOnEof(step: State -> State)
  {
    forall s :: step(s).cur == Ok(Eof) ==> step(s).pos == 0
  }

  /** Such a loop never dereferences `eof`, whatever the input, including one
      it cannot lex and one whose count wraps around. */
  lemma {:induction false} EofNeverYielded(step: State -> State, s: State, fuel: nat)
    requires EndsOnEof(step)
    requires s.cur == Ok(Eof) ==> s.pos == 0
    ensures Ok(Eof) !in Yielded(step, s, fuel)
    decreases fuel
  {
    if fuel > 0 && s.pos != 0 {
      EofNeverYielded(step, step(s), fuel - 1);
    }
  }

  /** Within `k` steps, `step` reaches the error `e`, counting every step. */
  predicate ErrorWithin(step: State -> State, s: State, e: LexError, k: nat)
    decreases k
  {
    var t := step(s);
    k > 0 && t.pos == SizeInc(s.pos) && (t.cur == Err(e) || ErrorWithin(step, t, e, k - 1))
  }

  /** An error reached within `k` counted steps from a state that is not at
      the end is dereferenced by the loop, given room in `pos` and in the fuel. */
  lemma {:induction false} ErrorYielded(step: State -> State, s: State, e: LexError, k: nat, fuel: nat)
    requires ErrorWithin(step, s, e, k)
    requires 0 < s.pos && s.pos + k <= SizeMax && fuel > k
    ensures Err(e) in Yielded(step, s, fuel)
    decreases k
  {
    var t := step(s);
    assert Yielded(step, s, fuel) == [s.cur] + Yielded(step, t, fuel - 1);
    if t.cur == Err(e) {
      assert Yielded(step, t, fuel - 1) == [t.cur] + Yielded(step, step(t), fuel - 2);
    } else {
      ErrorYielded(step, t, e, k - 1, fuel - 1);
    }
  }

  /** The same, for a loop started by one `step` from a zero count. */
  lemma ErrorYieldedFromStart(step: State -> State, s: State, e: LexError, k: nat, fuel: nat)
    requires s.pos == 0 && ErrorWithin(step, s, e, k)
    requires k <= SizeMax && fuel >= k
    ensures Err(e) in Yielded(step, step(s), fuel)
  {
    var b := step(s);
    assert Yielded(step, b, fuel) == [b.cur] + Yielded(step, step(b), fuel - 1);
    if b.cur != Err(e) {
      ErrorYielded(step, b, e, k - 1, fuel);
    }
  }

  // ---------------------------------------------------------------------------
  // `++it` against the reference lexing

  /** What remains to be lexed is what `++it` goes on to produce. */
  lemma {:induction false} RemainingProduces(chunks: seq<string>, s: State, ts: seq<Lexeme>)
    requires ValidChunks(chunks) && Fits(chunks, s)
    requires Remaining(chunks, s.buffer, s.next) == Ok(ts)
    ensures Produces(PreIncrement(chunks), s, ts)
    decreases ts
  {
    AdvanceOk(chunks, s, ts);
    if ts != [] {
      RemainingProduces(chunks, Advance(chunks, s), ts[1..]);
    }
  }

  /** A failing reference lexing is an error `++it` reaches, within one step
      more than there are characters pending. */
  lemma {:induction false} RemainingError(chunks: seq<string>, s: State, e: LexError, k: nat)
    requires ValidChunks(chunks) && Fits(chunks, s)
    requires Remaining(chunks, s.buffer, s.next) == Err(e)
    requires k > Pending(chunks, s.buffer, s.next)
    ensures ErrorWithin(PreIncrement(chunks), s, e, k)
    decreases k
  {
    AdvanceErr(chunks, s, e);
    var t := Advance(chunks, s);
    if t.cur != Err(e) {
      RemainingError(chunks, t, e, k - 1);
    }
  }

  /** `++it` produces `eof` only together with the `end()` count. */
  lemma PreIncrementEndsOnEof(chunks: seq<string>)
    ensures EndsOnEof(PreIncrement(chunks))
  {
    forall s ensures PreIncrement(chunks)(s).cur == Ok(Eof) ==> PreIncrement(chunks)(s).pos == 0 {
      AdvanceSpec(chunks, s);
    }
  }

  /** A fresh iterator on a stream that has not been read from. */
  function Fresh(): State
  {
    Initial(0)
  }

  /** The iterator `begin()` returns on a stream that has not been read from. */
  function Begin(chunks: seq<string>): State
  {
    Advance(chunks, Fresh())
  }

  /** Iterating over a stream that lexes to `ts` yields exactly `ts`, never
      `eof`; `begin()` equals `end()` exactly when the input is empty. */
  lemma BeginYields(chunks: seq<string>, ts: seq<Lexeme>, fuel: nat)
    requires ValidChunks(chunks) && LexAll(chunks) == Ok(ts)
    requires |ts| <= SizeMax && fuel >= |ts|
    ensures Yielded(PreIncrement(chunks), Begin(chunks), fuel) == Oks(ts)
    ensures Begin(chunks).pos == 0 <==> ts == []
  {
    RemainingAtStart(chunks);
    RemainingProduces(chunks, Fresh(), ts);
    YieldedFromStart(PreIncrement(chunks), Fresh(), ts, fuel);
  }

  /** Whatever the stream holds, a loop from `begin()` never dereferences `eof`. */
  lemma BeginNeverYieldsEof(chunks: seq<string>, fuel: nat)
    ensures Ok(Eof) !in Yielded(PreIncrement(chunks), Begin(chunks), fuel)
  {
    PreIncrementEndsOnEof(chunks);
    AdvanceSpec(chunks, Fresh());
    EofNeverYielded(PreIncrement(chunks), Begin(chunks), fuel);
  }

  /** A stream whose reference lexing fails: the loop from `begin()`
      dereferences that error before it reaches `end()`, provided `pos` does
      not wrap first. */
  lemma BeginReportsError(chunks: seq<string>, e: LexError, fuel: nat)
    requires ValidChunks(chunks) && LexAll(chunks) == Err(e)
    requires Pending(chunks, [], 0) < SizeMax && fuel > Pending(chunks, [], 0)
    ensures Err(e) in Yielded(PreIncrement(chunks), Begin(chunks), fuel)
  {
    var k := Pending(chunks, [], 0) + 1;
    RemainingAtStart(chunks);
    RemainingError(chunks, Fresh(), e, k);
    ErrorYieldedFromStart(PreIncrement(chunks), Fresh(), e, k, fuel);
  }

  // ---------------------------------------------------------------------------
  // The lexer and its iterator

  class Lex {
    /** The stream every iterator of this lexer reads from. */
    const inputs: ChunkStream

    ghost predicate Valid()
      reads this, inputs
    {
      inputs.Valid()
    }

    /** `lex(istream &)`: refers to the stream; reads nothing. */
    constructor(inputs: ChunkStream)
      requires inputs.Valid()
      ensures Valid() && this.inputs == inputs
    {
      this.inputs := inputs;
    }

    /** `begin()`: a fresh iterator advanced once. */
    method Begin() returns (it: Iterator)
      requires Valid()
      modifies inputs
      ensures fresh(it) && it.inputs == inputs && it.Valid()
      ensures it.Snapshot() == Advance(inputs.chunks, Initial(old(inputs.next)))
    {
      it := new Iterator(inputs);
      it.Increment();
    }

    /** `end()`: a fresh iterator, not advanced, so with a count of zero. */
    method End() returns (it: Iterator)
      requires Valid()
      ensures fresh(it) && it.inputs == inputs && it.Valid()
      ensures it.Snapshot() == Initial(inputs.next)
    {
      it := new Iterator(inputs);
    }
  }

  class Iterator {
    /** The stream, shared with the lexer and its other iterators. */
    const inputs: ChunkStream
    /** Text read from the stream and not yet turned into lexemes. */
    var buffer: string
    var cur: Result<Lexeme>
    /** How many lexemes have been produced, or zero once `eof` is. */
    var pos: Size

    ghost predicate Valid()
      reads this, inputs
    {
      inputs.Valid()
    }

    ghost function Snapshot(): State
      reads this, inputs
    {
      State(buffer, inputs.next, pos, cur)
    }

    /** `iterator(inputs, lexeme)`: nothing buffered, a count of zero. */
    constructor(inputs: ChunkStream)
      requires inputs.Valid()
      ensures this.inputs == inputs && Valid()
      ensures Snapshot() == Initial(inputs.next)
    {
      this.inputs := inputs;
      buffer := [];
      cur := Ok(LParen);
      pos := 0;
    }

    /** `*it`: the current lexeme, as the last step produced it. */
    function Current(): (l: Result<Lexeme>)
      reads this
      ensures l == cur
    {
      cur
    }

    /** `++it`: refills an empty buffer from the stream, or on exhaustion sets
        `eof` and the count zero; otherwise counts one more and classifies the
        buffer's front (identifier before `(` before `)`), keeping the rest. */
    method Increment()
      requires Valid()
      modifies this, inputs
      ensures Valid()
      ensures Snapshot() == Advance(inputs.chunks, old(Snapshot()))
    {
      if buffer == [] {
        var ok, chunk := inputs.Read();
        if !ok {
          pos := 0;
          cur := Ok(Eof);
          return;
        }
        buffer := chunk;
      }
      pos := SizeInc(pos);
      match Classify(buffer)
      case Ok((l, rest)) =>
        cur := Ok(l);
        buffer := rest;
      case Err(e) =>
        cur := Err(e);
    }

    /** `it++`, that is `operator++(int n)`: `++it` for `i` from 0 while
        `i < n`, so exactly `n` times for a positive `n` and not at all
        otherwise. */
    method IncrementBy(n: int)
      requires Valid()
      modifies this, inputs
      ensures Valid()
      ensures Snapshot() == Iterate(PreIncrement(inputs.chunks), old(Snapshot()), if n > 0 then n else 0)
    {
      ghost var s0 := Snapshot();
      var i := 0;
      while i < n
        invariant Valid()
        invariant n > 0 ==> 0 <= i <= n
        invariant n <= 0 ==> i == 0
        invariant Snapshot() == Iterate(PreIncrement(inputs.chunks), s0, i)
      {
        Increment();
        IterateLast(PreIncrement(inputs.chunks), s0, i);
        i := i + 1;
      }
    }

    /** `it != other`: compares the counts and nothing else. */
    function NotEqual(other: Iterator): (b: bool)
      reads this, other
      ensures b <==> pos != other.pos
    {
      pos != other.pos
    }
  }
}

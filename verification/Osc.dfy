/** The OSC scanner: a six-state streaming filter that removes application OSCs
    (`ESC ] 5111 ; ... `) and over-long OSCs from terminal output, and forwards the rest. */
module Osc {
  import opened Prelude

  const MAX_OSC_LEN := 64 * 1024
  const ESC: Byte := 0x1B
  const BEL: Byte := 0x07
  const BRACKET: Byte := 0x5D    // ']'
  const BACKSLASH: Byte := 0x5C  // '\\'
  const SEMI: Byte := 0x3B       // ';'
  const APP_PREFIX: seq<Byte> := [0x35, 0x31, 0x31, 0x31] // "5111"

  datatype State = Normal | Esc | InOsc | OscEsc | OscOverflow | OscOverflowEsc
  datatype Terminator = Bel | St

  /** Scanner state between bytes: where it is, and the payload collected so far. */
  datatype Scanner = Scanner(state: State, buf: seq<Byte>)

  /** The scanner after some input, with what it forwarded and captured meanwhile. */
  datatype Outcome = Outcome(sc: Scanner, out: seq<Byte>, caps: seq<seq<Byte>>)

  const Start := Scanner(Normal, [])

  /** The bytes before the first `;`. */
  function FirstSegment(s: seq<Byte>): seq<Byte> {
    if s == [] || s[0] == SEMI then [] else [s[0]] + FirstSegment(s[1..])
  }

  predicate IsApp(payload: seq<Byte>) {
    FirstSegment(payload) == APP_PREFIX
  }

  /** What the caller is handed of an application payload. */
  function Captured(payload: seq<Byte>): seq<Byte> {
    if |payload| > 5 then payload[5..] else []
  }

  function TerminatorBytes(t: Terminator): seq<Byte> {
    match t
    case Bel => [BEL]
    case St => [ESC, BACKSLASH]
  }

  /** `finish_osc`. */
  function FinishOsc(buf: seq<Byte>, t: Terminator): Outcome {
    if IsApp(buf) then Outcome(Start, [], [Captured(buf)])
    else Outcome(Start, [ESC, BRACKET] + buf + TerminatorBytes(t), [])
  }

  /** One byte of `feed`. */
  function Step(sc: Scanner, b: Byte): Outcome {
    match sc.state
    case Normal =>
      if b == ESC then Outcome(Scanner(Esc, sc.buf), [], []) else Outcome(sc, [b], [])
    case Esc =>
      if b == BRACKET then Outcome(Scanner(InOsc, []), [], [])
      else Outcome(Scanner(Normal, sc.buf), [ESC, b], [])
    case InOsc =>
      if b == BEL then FinishOsc(sc.buf, Bel)
      else if b == ESC then Outcome(Scanner(OscEsc, sc.buf), [], [])
      else if |sc.buf| < MAX_OSC_LEN then Outcome(Scanner(InOsc, sc.buf + [b]), [], [])
      else Outcome(Scanner(OscOverflow, []), [], [])
    case OscEsc =>
      if b == BACKSLASH then FinishOsc(sc.buf, St)
      else if |sc.buf| + 2 <= MAX_OSC_LEN then Outcome(Scanner(InOsc, sc.buf + [ESC, b]), [], [])
      else Outcome(Scanner(OscOverflow, []), [], [])
    case OscOverflow =>
      if b == BEL then Outcome(Scanner(Normal, sc.buf), [], [])
      else if b == ESC then Outcome(Scanner(OscOverflowEsc, sc.buf), [], [])
      else Outcome(sc, [], [])
    case OscOverflowEsc =>
      if b == BACKSLASH then Outcome(Scanner(Normal, sc.buf), [], [])
      else if b == ESC then Outcome(sc, [], [])
      else Outcome(Scanner(OscOverflow, sc.buf), [], [])
  }

  /** Every byte of an input in turn. */
  function Run(sc: Scanner, s: seq<Byte>): Outcome
    decreases |s|
  {
    if s == [] then Outcome(sc, [], [])
    else
      var o := Step(sc, s[0]);
      var r := Run(o.sc, s[1..]);
      Outcome(r.sc, o.out + r.out, o.caps + r.caps)
  }

  /** One feed after another. */
  function RunChunks(sc: Scanner, chunks: seq<seq<Byte>>): Outcome
    decreases |chunks|
  {
    if chunks == [] then Outcome(sc, [], [])
    else
      var o := Run(sc, chunks[0]);
      var r := RunChunks(o.sc, chunks[1..]);
      Outcome(r.sc, o.out + r.out, o.caps + r.caps)
  }

  lemma RunNothing(sc: Scanner)
    ensures Run(sc, []) == Outcome(sc, [], [])
  {
  }

  lemma RunOne(sc: Scanner, b: Byte)
    ensures Run(sc, [b]) == Step(sc, b)
  {
  }

  lemma RunTwo(sc: Scanner, a: Byte, b: Byte)
    ensures var o, r := Step(sc, a), Step(Step(sc, a).sc, b);
            Run(sc, [a, b]) == Outcome(r.sc, o.out + r.out, o.caps + r.caps)
  {
    hide Step;
    RunOne(Step(sc, a).sc, b);
    assert [a, b][1..] == [b];
  }

  lemma {:induction false} RunAppend(sc: Scanner, s: seq<Byte>, t: seq<Byte>)
    ensures var o, r := Run(sc, s), Run(Run(sc, s).sc, t);
            Run(sc, s + t) == Outcome(r.sc, o.out + r.out, o.caps + r.caps)
    decreases |s|
  {
    hide Step;
    if s == [] {
      assert s + t == t;
    } else {
      assert (s + t)[1..] == s[1..] + t;
      RunAppend(Step(sc, s[0]).sc, s[1..], t);
    }
  }

  lemma RunSnoc(sc: Scanner, s: seq<Byte>, i: nat)
    requires i < |s|
    ensures var o := Run(sc, s[..i]);
            var r := Step(o.sc, s[i]);
            Run(sc, s[..i + 1]) == Outcome(r.sc, o.out + r.out, o.caps + r.caps)
  {
    hide Step, Run;
    RunAppend(sc, s[..i], [s[i]]);
    RunOne(Run(sc, s[..i]).sc, s[i]);
    assert s[..i] + [s[i]] == s[..i + 1];
  }

  /** However a byte stream is cut into feeds, the total outputs and the final state are
      those of feeding it whole. */
  lemma {:induction false} ChunkingIrrelevant(sc: Scanner, chunks: seq<seq<Byte>>)
    ensures RunChunks(sc, chunks) == Run(sc, Flatten(chunks))
    decreases |chunks|
  {
    hide Run;
    if chunks == [] {
      RunNothing(sc);
    } else {
      ChunkingIrrelevant(Run(sc, chunks[0]).sc, chunks[1..]);
      RunAppend(sc, chunks[0], Flatten(chunks[1..]));
    }
  }

  // ---- the scanner as the program holds it ------------------------------------------

  class OscScanner {
    var state: State
    var buf: seq<Byte>

    ghost predicate Valid()
      reads this
    {
      |buf| <= MAX_OSC_LEN
    }

    ghost function Model(): Scanner
      reads this
    {
      Scanner(state, buf)
    }

    constructor ()
      ensures Valid() && Model() == Start
    {
      state := Normal;
      buf := [];
    }

    method Finish(t: Terminator, out: seq<Byte>, captured: seq<seq<Byte>>)
      returns (out': seq<Byte>, captured': seq<seq<Byte>>)
      requires Valid()
      modifies this
      ensures Valid()
      ensures var o := FinishOsc(old(buf), t);
              Model() == o.sc && out' == out + o.out && captured' == captured + o.caps
    {
      var prefix := FirstSegment(buf);
      if prefix == APP_PREFIX {
        captured' := captured + [if |buf| > 5 then buf[5..] else []];
        out' := out;
      } else {
        out' := out + ([ESC, BRACKET] + buf + TerminatorBytes(t));
        captured' := captured;
      }
      buf := [];
      state := Normal;
    }

    /** One turn of the loop of `feed`. */
    method FeedByte(b: Byte, out: seq<Byte>, captured: seq<seq<Byte>>)
      returns (out': seq<Byte>, captured': seq<seq<Byte>>)
      requires Valid()
      modifies this
      ensures Valid()
      ensures var o := Step(old(Model()), b);
              Model() == o.sc && out' == out + o.out && captured' == captured + o.caps
    {
      hide FinishOsc;
      out', captured' := out, captured;
      match state
      case Normal =>
        if b == ESC {
          state := Esc;
        } else {
          out' := out + [b];
        }
      case Esc =>
        if b == BRACKET {
          state := InOsc;
          buf := [];
        } else {
          out' := out + [ESC, b];
          state := Normal;
        }
      case InOsc =>
        if b == BEL {
          out', captured' := Finish(Bel, out, captured);
        } else if b == ESC {
          state := OscEsc;
        } else if |buf| < MAX_OSC_LEN {
          buf := buf + [b];
        } else {
          buf := [];
          state := OscOverflow;
        }
      case OscEsc =>
        if b == BACKSLASH {
          out', captured' := Finish(St, out, captured);
        } else if |buf| + 2 <= MAX_OSC_LEN {
          buf := buf + [ESC, b];
          state := InOsc;
        } else {
          buf := [];
          state := OscOverflow;
        }
      case OscOverflow =>
        if b == BEL {
          state := Normal;
        } else if b == ESC {
          state := OscOverflowEsc;
        }
      case OscOverflowEsc =>
        if b == BACKSLASH {
          state := Normal;
        } else if b != ESC {
          state := OscOverflow;
        }
    }

    method Feed(input: seq<Byte>) returns (out: seq<Byte>, captured: seq<seq<Byte>>)
      requires Valid()
      modifies this
      ensures Valid()
      ensures Outcome(Model(), out, captured) == Run(old(Model()), input)
    {
      hide Step, Run;
      out, captured := [], [];
      assert input[..0] == [];
      RunNothing(Model());
      for i := 0 to |input|
        invariant Valid() && Outcome(Model(), out, captured) == Run(old(Model()), input[..i])
      {
        ghost var sc := Model();
        RunSnoc(old(Model()), input, i);
        out, captured := FeedByte(input[i], out, captured);
      }
      assert input[..|input|] == input;
    }
  }

  // ---- terminal output as tokens -------------------------------------------------------

  /** Payload bytes of an OSC: anything but BEL, with every ESC followed by a byte other
      than a backslash that it takes along. */
  predicate IsPayload(p: seq<Byte>) {
    p == [] || (p[0] != BEL && p[0] != ESC && IsPayload(p[1..]))
    || (p[0] == ESC && |p| >= 2 && p[1] != BACKSLASH && IsPayload(p[2..]))
  }

  /** The first payload unit that no longer fits after `fit`. */
  predicate IsBurst(fit: seq<Byte>, burst: seq<Byte>) {
    || (|burst| == 1 && burst[0] != BEL && burst[0] != ESC && |fit| == MAX_OSC_LEN)
    || (|burst| == 2 && burst[0] == ESC && burst[1] != BACKSLASH && |fit| + 2 > MAX_OSC_LEN)
  }

  predicate EndsInEsc(s: seq<Byte>) {
    s != [] && s[|s| - 1] == ESC
  }

  /** Bytes swallowed after an overflow: no BEL but right after an ESC, no backslash
      right after one. */
  predicate IsJunk(junk: seq<Byte>) {
    junk == [] ||
    var init, last := junk[..|junk| - 1], junk[|junk| - 1];
    IsJunk(init) && (last == BEL ==> EndsInEsc(init)) && (last == BACKSLASH ==> !EndsInEsc(init))
  }

  /** A complete piece of terminal output. */
  datatype Token =
    | Plain(b: Byte)
    | Pair(b: Byte)
    | Whole(payload: seq<Byte>, term: Terminator)
    | TooLong(fit: seq<Byte>, burst: seq<Byte>, junk: seq<Byte>, term: Terminator)

  /** An unfinished piece at the end of the input. */
  datatype Tail =
    | NoTail
    | EscTail
    | OscTail(payload: seq<Byte>)
    | OscEscTail(payload: seq<Byte>)
    | LongTail(fit: seq<Byte>, burst: seq<Byte>, junk: seq<Byte>)

  predicate ValidToken(t: Token) {
    match t
    case Plain(b) => b != ESC
    case Pair(b) => b != BRACKET
    case Whole(p, _) => IsPayload(p) && |p| <= MAX_OSC_LEN
    case TooLong(fit, burst, junk, term) =>
      IsPayload(fit) && |fit| <= MAX_OSC_LEN && IsBurst(fit, burst) && IsJunk(junk) && (term.Bel? ==> !EndsInEsc(junk))
  }

  predicate ValidTail(t: Tail) {
    match t
    case OscTail(p) => IsPayload(p) && |p| <= MAX_OSC_LEN
    case OscEscTail(p) => IsPayload(p) && |p| <= MAX_OSC_LEN
    case LongTail(fit, burst, junk) =>
      IsPayload(fit) && |fit| <= MAX_OSC_LEN && IsBurst(fit, burst) && IsJunk(junk)
    case _ => true
  }

  function TokenBytes(t: Token): seq<Byte> {
    match t
    case Plain(b) => [b]
    case Pair(b) => [ESC, b]
    case Whole(p, term) => [ESC, BRACKET] + p + TerminatorBytes(term)
    case TooLong(fit, burst, junk, term) => [ESC, BRACKET] + fit + burst + junk + TerminatorBytes(term)
  }

  function TailBytes(t: Tail): seq<Byte> {
    match t
    case NoTail => []
    case EscTail => [ESC]
    case OscTail(p) => [ESC, BRACKET] + p
    case OscEscTail(p) => [ESC, BRACKET] + p + [ESC]
    case LongTail(fit, burst, junk) => [ESC, BRACKET] + fit + burst + junk
  }

  /** What a terminal should be sent of a token: everything but the complete application
      OSCs and the over-long OSCs. */
  function Kept(t: Token): seq<Byte> {
    if t.TooLong? || (t.Whole? && IsApp(t.payload)) then [] else TokenBytes(t)
  }

  function Caps(t: Token): seq<seq<Byte>> {
    if t.Whole? && IsApp(t.payload) then [Captured(t.payload)] else []
  }

  function AllBytes(ts: seq<Token>): seq<Byte> {
    if ts == [] then [] else TokenBytes(ts[0]) + AllBytes(ts[1..])
  }

  function AllKept(ts: seq<Token>): seq<Byte> {
    if ts == [] then [] else Kept(ts[0]) + AllKept(ts[1..])
  }

  function AllCaps(ts: seq<Token>): seq<seq<Byte>> {
    if ts == [] then [] else Caps(ts[0]) + AllCaps(ts[1..])
  }

  /** The scanner state that stands for an unfinished piece. */
  function StateOf(t: Tail): Scanner {
    match t
    case NoTail => Start
    case EscTail => Scanner(Esc, [])
    case OscTail(p) => Scanner(InOsc, p)
    case OscEscTail(p) => Scanner(OscEsc, p)
    case LongTail(_, _, junk) => Scanner(if EndsInEsc(junk) then OscOverflowEsc else OscOverflow, [])
  }

  predicate ValidTokens(ts: seq<Token>) {
    forall i :: 0 <= i < |ts| ==> ValidToken(ts[i])
  }

  // ---- every token is scanned as it should be -----------------------------------------

  lemma {:induction false} RunPayload(buf: seq<Byte>, p: seq<Byte>)
    requires IsPayload(p) && |buf| + |p| <= MAX_OSC_LEN
    ensures Run(Scanner(InOsc, buf), p) == Outcome(Scanner(InOsc, buf + p), [], [])
    decreases |p|
  {
    hide Run;
    var sc := Scanner(InOsc, buf);
    if p == [] {
      assert buf + p == buf;
      RunNothing(sc);
    } else if p[0] != ESC {
      assert p == [p[0]] + p[1..] && buf + [p[0]] + p[1..] == buf + p;
      RunOne(sc, p[0]);
      RunPayload(buf + [p[0]], p[1..]);
      RunAppend(sc, [p[0]], p[1..]);
    } else {
      assert p == [ESC, p[1]] + p[2..] && buf + [ESC, p[1]] + p[2..] == buf + p;
      RunTwo(sc, ESC, p[1]);
      RunPayload(buf + [ESC, p[1]], p[2..]);
      RunAppend(sc, [ESC, p[1]], p[2..]);
    }
  }

  lemma {:induction false} RunJunk(junk: seq<Byte>)
    requires IsJunk(junk)
    ensures Run(Scanner(OscOverflow, []), junk) ==
            Outcome(Scanner(if EndsInEsc(junk) then OscOverflowEsc else OscOverflow, []), [], [])
  {
    hide Run;
    if junk == [] {
      RunNothing(Scanner(OscOverflow, []));
    } else {
      var n := |junk| - 1;
      assert junk == junk[..n] + [junk[n]];
      RunJunk(junk[..n]);
      RunOne(Run(Scanner(OscOverflow, []), junk[..n]).sc, junk[n]);
      RunAppend(Scanner(OscOverflow, []), junk[..n], [junk[n]]);
    }
  }

  lemma RunOscTail(p: seq<Byte>)
    requires IsPayload(p) && |p| <= MAX_OSC_LEN
    ensures Run(Start, [ESC, BRACKET] + p) == Outcome(Scanner(InOsc, p), [], [])
  {
    RunOpen();
    RunAppend(Start, [ESC, BRACKET], p);
    RunPayload([], p);
    assert [] + p == p;
  }

  lemma RunTail(t: Tail)
    requires ValidTail(t)
    ensures Run(Start, TailBytes(t)) == Outcome(StateOf(t), [], [])
  {
    hide Run;
    match t
    case NoTail => RunNothing(Start);
    case EscTail => RunOne(Start, ESC);
    case OscTail(p) => RunOscTail(p);
    case OscEscTail(p) =>
      RunOscTail(p);
      RunAppend(Start, [ESC, BRACKET] + p, [ESC]);
      RunOne(Scanner(InOsc, p), ESC);
    case LongTail(fit, burst, junk) =>
      RunOscTail(fit);
      RunAppend(Start, [ESC, BRACKET] + fit, burst);
      RunBurst(fit, burst);
      RunAppend(Start, [ESC, BRACKET] + fit + burst, junk);
      RunJunk(junk);
  }

  lemma RunOpen()
    ensures Run(Start, [ESC, BRACKET]) == Outcome(Scanner(InOsc, []), [], [])
  {
    hide Run;
    RunTwo(Start, ESC, BRACKET);
  }

  lemma RunBurst(fit: seq<Byte>, burst: seq<Byte>)
    requires IsBurst(fit, burst)
    ensures Run(Scanner(InOsc, fit), burst) == Outcome(Scanner(OscOverflow, []), [], [])
  {
    hide Run;
    if |burst| == 1 {
      assert burst == [burst[0]];
      RunOne(Scanner(InOsc, fit), burst[0]);
    } else {
      assert burst == [burst[0], burst[1]];
      RunTwo(Scanner(InOsc, fit), burst[0], burst[1]);
    }
  }

  lemma RunClose(sc: Scanner, t: Terminator)
    requires sc.state == InOsc
    ensures Run(sc, TerminatorBytes(t)) == FinishOsc(sc.buf, t)
  {
    hide Run, FinishOsc;
    RunOne(sc, BEL);
    RunTwo(sc, ESC, BACKSLASH);
  }

  /** A valid token takes the idle scanner back to idle, forwarding and capturing exactly
      what the token calls for. */
  lemma RunToken(t: Token)
    requires ValidToken(t)
    ensures Run(Start, TokenBytes(t)) == Outcome(Start, Kept(t), Caps(t))
  {
    hide Run, IsApp, IsPayload, IsJunk;
    match t
    case Plain(b) => RunOne(Start, b);
    case Pair(b) => RunTwo(Start, ESC, b);
    case Whole(p, term) =>
      RunOscTail(p);
      RunAppend(Start, [ESC, BRACKET] + p, TerminatorBytes(term));
      RunClose(Scanner(InOsc, p), term);
    case TooLong(fit, burst, junk, term) =>
      var tail := LongTail(fit, burst, junk);
      RunTail(tail);
      RunAppend(Start, TailBytes(tail), TerminatorBytes(term));
      RunOne(StateOf(tail), BEL);
      RunTwo(StateOf(tail), ESC, BACKSLASH);
  }

  /** For any valid reading of an input as tokens and an unfinished tail, the scanner
      forwards exactly the kept tokens, captures exactly the application payloads, and
      holds exactly the tail. */
  lemma {:induction false} RunTokens(ts: seq<Token>, tail: Tail)
    requires ValidTokens(ts) && ValidTail(tail)
    ensures Run(Start, AllBytes(ts) + TailBytes(tail)) == Outcome(StateOf(tail), AllKept(ts), AllCaps(ts))
  {
    hide ValidToken, ValidTail, TokenBytes, TailBytes, Kept, Caps, StateOf, Step;
    if ts == [] {
      assert AllBytes(ts) + TailBytes(tail) == TailBytes(tail);
      RunTail(tail);
    } else {
      RunToken(ts[0]);
      RunTokens(ts[1..], tail);
      assert AllBytes(ts) + TailBytes(tail) == TokenBytes(ts[0]) + (AllBytes(ts[1..]) + TailBytes(tail));
      RunAppend(Start, TokenBytes(ts[0]), AllBytes(ts[1..]) + TailBytes(tail));
    }
  }

  // ---- every input has such a reading ---------------------------------------------------

  datatype Reading = Reading(tokens: seq<Token>, tail: Tail)

  predicate ValidReading(r: Reading) {
    ValidTokens(r.tokens) && ValidTail(r.tail)
  }

  function ReadingBytes(r: Reading): seq<Byte> {
    AllBytes(r.tokens) + TailBytes(r.tail)
  }

  lemma {:induction false} PayloadSnoc(p: seq<Byte>, unit: seq<Byte>)
    requires IsPayload(p) && IsPayload(unit)
    ensures IsPayload(p + unit)
    decreases |p|
  {
    if p == [] {
      assert p + unit == unit;
    } else if p[0] != ESC {
      assert (p + unit)[1..] == p[1..] + unit;
      PayloadSnoc(p[1..], unit);
    } else {
      assert (p + unit)[2..] == p[2..] + unit;
      PayloadSnoc(p[2..], unit);
    }
  }

  lemma {:induction false} AllBytesSnoc(ts: seq<Token>, t: Token)
    ensures AllBytes(ts + [t]) == AllBytes(ts) + TokenBytes(t)
  {
    hide TokenBytes;
    if ts == [] {
      assert ts + [t] == [t];
      assert AllBytes([t]) == TokenBytes(t) + AllBytes([t][1..]);
    } else {
      assert (ts + [t])[1..] == ts[1..] + [t];
      AllBytesSnoc(ts[1..], t);
    }
  }

  /** How one more byte changes an unfinished tail: it finishes a token, or stays open. */
  function ExtendTail(t: Tail, b: Byte): (Option<Token>, Tail) {
    match t
    case NoTail => if b == ESC then (None, EscTail) else (Some(Plain(b)), NoTail)
    case EscTail => if b == BRACKET then (None, OscTail([])) else (Some(Pair(b)), NoTail)
    case OscTail(p) =>
      if b == BEL then (Some(Whole(p, Bel)), NoTail)
      else if b == ESC then (None, OscEscTail(p))
      else if |p| < MAX_OSC_LEN then (None, OscTail(p + [b]))
      else (None, LongTail(p, [b], []))
    case OscEscTail(p) =>
      if b == BACKSLASH then (Some(Whole(p, St)), NoTail)
      else if |p| + 2 <= MAX_OSC_LEN then (None, OscTail(p + [ESC, b]))
      else (None, LongTail(p, [ESC, b], []))
    case LongTail(fit, burst, junk) =>
      if b == BEL && !EndsInEsc(junk) then (Some(TooLong(fit, burst, junk, Bel)), NoTail)
      else if b == BACKSLASH && EndsInEsc(junk) then (Some(TooLong(fit, burst, junk[..|junk| - 1], St)), NoTail)
      else (None, LongTail(fit, burst, junk + [b]))
  }

  /** A tail that grew: a finished token, or a tail still open. */
  predicate ValidGrowth(g: (Option<Token>, Tail)) {
    match g.0
    case Some(tok) => ValidToken(tok) && g.1 == NoTail
    case None => ValidTail(g.1)
  }

  function GrowthBytes(g: (Option<Token>, Tail)): seq<Byte> {
    match g.0
    case Some(tok) => TokenBytes(tok)
    case None => TailBytes(g.1)
  }

  /** Growing by `b` loses no byte. */
  predicate Extends(t: Tail, b: Byte) {
    ValidGrowth(ExtendTail(t, b)) && GrowthBytes(ExtendTail(t, b)) == TailBytes(t) + [b]
  }

  lemma PayloadUnits(p: seq<Byte>, b: Byte)
    requires IsPayload(p)
    ensures IsPayload([]) && IsJunk([])
    ensures b != BEL && b != ESC ==> IsPayload(p + [b])
    ensures b != BACKSLASH ==> IsPayload(p + [ESC, b])
  {
    if b != BEL && b != ESC {
      PayloadSnoc(p, [b]);
    }
    if b != BACKSLASH {
      assert [ESC, b][2..] == [];
      PayloadSnoc(p, [ESC, b]);
    }
  }

  lemma GrownBytes(p: seq<Byte>, b: Byte)
    ensures TailBytes(OscTail(p + [b])) == TailBytes(OscTail(p)) + [b] == TailBytes(LongTail(p, [b], []))
    ensures TailBytes(OscTail(p)) + [BEL] == TokenBytes(Whole(p, Bel))
    ensures TailBytes(OscTail(p)) + [ESC] == TailBytes(OscEscTail(p))
  {
    AppendAssoc([ESC, BRACKET], p, [b]);
  }

  lemma GrownEscBytes(p: seq<Byte>, b: Byte)
    ensures TailBytes(OscTail(p + [ESC, b])) == TailBytes(OscEscTail(p)) + [b] == TailBytes(LongTail(p, [ESC, b], []))
    ensures TailBytes(OscEscTail(p)) + [BACKSLASH] == TokenBytes(Whole(p, St))
  {
  }

  lemma ExtendPayload(p: seq<Byte>, b: Byte)
    requires IsPayload(p) && |p| <= MAX_OSC_LEN && b != BEL && b != ESC
    ensures Extends(OscTail(p), b)
  {
    hide IsPayload, IsJunk, TailBytes;
    PayloadUnits(p, b);
    GrownBytes(p, b);
  }

  lemma CloseOsc(p: seq<Byte>, b: Byte)
    requires IsPayload(p) && |p| <= MAX_OSC_LEN && (b == BEL || b == ESC)
    ensures Extends(OscTail(p), b)
  {
    hide IsPayload, TailBytes, TokenBytes;
    GrownBytes(p, b);
  }

  lemma ExtendOsc(p: seq<Byte>, b: Byte)
    requires IsPayload(p) && |p| <= MAX_OSC_LEN
    ensures Extends(OscTail(p), b)
  {
    hide IsPayload, Extends;
    if b == BEL || b == ESC {
      CloseOsc(p, b);
    } else {
      ExtendPayload(p, b);
    }
  }

  lemma ExtendOscEsc(p: seq<Byte>, b: Byte)
    requires IsPayload(p) && |p| <= MAX_OSC_LEN
    ensures Extends(OscEscTail(p), b)
  {
    hide IsPayload, IsJunk, TailBytes, TokenBytes;
    PayloadUnits(p, b);
    GrownEscBytes(p, b);
  }

  lemma ExtendLong(fit: seq<Byte>, burst: seq<Byte>, junk: seq<Byte>, b: Byte)
    requires ValidTail(LongTail(fit, burst, junk))
    ensures Extends(LongTail(fit, burst, junk), b)
  {
    hide IsPayload, IsBurst;
    var front := [ESC, BRACKET] + fit + burst;
    if b == BACKSLASH && EndsInEsc(junk) {
      var init := junk[..|junk| - 1];
      assert junk == init + [ESC] && IsJunk(init);
      hide IsJunk;
      AppendAssoc(front, init, [ESC]);
      AppendAssoc(front + init, [ESC], [BACKSLASH]);
      assert [ESC] + [BACKSLASH] == [ESC, BACKSLASH];
    } else if !(b == BEL && !EndsInEsc(junk)) {
      JunkSnoc(junk, b);
      hide IsJunk;
      AppendAssoc(front, junk, [b]);
    }
  }

  lemma ExtendTailValid(t: Tail, b: Byte)
    requires ValidTail(t)
    ensures Extends(t, b)
  {
    match t
    case NoTail =>
    case EscTail =>
    case OscTail(p) => ExtendOsc(p, b);
    case OscEscTail(p) => ExtendOscEsc(p, b);
    case LongTail(fit, burst, junk) => ExtendLong(fit, burst, junk, b);
  }

  lemma JunkSnoc(junk: seq<Byte>, b: Byte)
    requires IsJunk(junk) && (b == BEL ==> EndsInEsc(junk)) && (b == BACKSLASH ==> !EndsInEsc(junk))
    ensures IsJunk(junk + [b])
  {
    assert (junk + [b])[..|junk|] == junk;
  }

  function Extend(r: Reading, b: Byte): Reading {
    match ExtendTail(r.tail, b)
    case (None, t) => Reading(r.tokens, t)
    case (Some(tok), t) => Reading(r.tokens + [tok], t)
  }

  lemma NoTailBytes()
    ensures TailBytes(NoTail) == []
  {
  }

  lemma ExtendValid(r: Reading, b: Byte)
    requires ValidReading(r)
    ensures ValidReading(Extend(r, b)) && ReadingBytes(Extend(r, b)) == ReadingBytes(r) + [b]
  {
    hide ValidToken, ExtendTail, TailBytes, TokenBytes, AllBytes;
    ExtendTailValid(r.tail, b);
    var g := ExtendTail(r.tail, b);
    if g.0.Some? {
      AllBytesSnoc(r.tokens, g.0.value);
      NoTailBytes();
    }
    assert AllBytes(r.tokens) + (TailBytes(r.tail) + [b]) == ReadingBytes(r) + [b];
  }

  /** The reading of an input. */
  function Read(s: seq<Byte>): Reading {
    if s == [] then Reading([], NoTail) else Extend(Read(s[..|s| - 1]), s[|s| - 1])
  }

  /** Every input reads as tokens and a tail. */
  lemma {:induction false} ReadValid(s: seq<Byte>)
    ensures ValidReading(Read(s)) && ReadingBytes(Read(s)) == s
  {
    hide ValidReading, ReadingBytes, Extend;
    if s == [] {
      ReadNothing();
    } else {
      var n := |s| - 1;
      ReadValid(s[..n]);
      ExtendValid(Read(s[..n]), s[n]);
      assert s == s[..n] + [s[n]];
    }
  }

  lemma ReadNothing()
    ensures ValidReading(Reading([], NoTail)) && ReadingBytes(Reading([], NoTail)) == []
  {
  }

  /** The bytes a scanner between bytes is holding back, when it is not swallowing an
      over-long OSC. */
  function Holding(sc: Scanner): seq<Byte> {
    match sc.state
    case Normal => []
    case Esc => [ESC]
    case InOsc => [ESC, BRACKET] + sc.buf
    case OscEsc => [ESC, BRACKET] + sc.buf + [ESC]
    case OscOverflow => []
    case OscOverflowEsc => []
  }

  /** The whole scanner, for every byte stream and every way of cutting it into feeds: the
      stream is a list of tokens and an unfinished tail; what is forwarded, together with
      what is held back, is the stream with exactly the complete application OSCs and the
      over-long OSCs deleted; the captured payloads are those of the deleted application
      OSCs, in order; and at most 64 KiB is ever buffered. */
  lemma ScannerFilters(chunks: seq<seq<Byte>>)
    ensures var s, o := Flatten(chunks), RunChunks(Start, chunks);
            var r := Read(s);
            && ValidReading(r) && ReadingBytes(r) == s
            && o.out == AllKept(r.tokens) && o.caps == AllCaps(r.tokens) && o.sc == StateOf(r.tail)
            && |o.sc.buf| <= MAX_OSC_LEN
            && Holding(o.sc) == if r.tail.LongTail? then [] else TailBytes(r.tail)
  {
    hide Read, Run, RunChunks, AllBytes, AllKept, AllCaps, ValidToken;
    var r := Read(Flatten(chunks));
    ChunkingIrrelevant(Start, chunks);
    ReadValid(Flatten(chunks));
    RunTokens(r.tokens, r.tail);
  }

  /** The reading is the only one, as far as the scanner can tell. */
  lemma ReadingsAgree(r: Reading)
    requires ValidReading(r)
    ensures var q := Read(ReadingBytes(r));
            AllKept(q.tokens) == AllKept(r.tokens) && AllCaps(q.tokens) == AllCaps(r.tokens)
            && StateOf(q.tail) == StateOf(r.tail)
  {
    hide ValidToken, ValidTail, Step;
    ReadValid(ReadingBytes(r));
    var q := Read(ReadingBytes(r));
    RunTokens(q.tokens, q.tail);
    RunTokens(r.tokens, r.tail);
  }

  /** A token the scanner lets through. */
  predicate PassesThrough(t: Token) {
    !t.TooLong? && !(t.Whole? && IsApp(t.payload))
  }

  lemma {:induction false} AllKeptWhole(ts: seq<Token>)
    requires forall i :: 0 <= i < |ts| ==> PassesThrough(ts[i])
    ensures AllKept(ts) == AllBytes(ts) && AllCaps(ts) == []
  {
    if ts != [] {
      AllKeptWhole(ts[1..]);
    }
  }

  /** On a stream that can be read without application or over-long OSCs the scanner is
      transparent, however the stream is cut: what it has forwarded and what it holds back
      are the stream, and nothing is captured. */
  lemma NothingToDelete(chunks: seq<seq<Byte>>, r: Reading)
    requires ValidReading(r) && ReadingBytes(r) == Flatten(chunks)
    requires !r.tail.LongTail? && forall i :: 0 <= i < |r.tokens| ==> PassesThrough(r.tokens[i])
    ensures var o := RunChunks(Start, chunks);
            o.out + Holding(o.sc) == Flatten(chunks) && o.caps == []
  {
    hide Run, RunChunks, AllBytes, AllKept, AllCaps, ValidToken, PassesThrough;
    ChunkingIrrelevant(Start, chunks);
    RunTokens(r.tokens, r.tail);
    AllKeptWhole(r.tokens);
  }

  // ---- the same in literal bytes ----------------------------------------------------------

  /** The payload's prefix is `5111`, standing alone or before a `;`. */
  predicate Is5111(p: seq<Byte>) {
    |p| >= 4 && p[0] == 0x35 && p[1] == 0x31 && p[2] == 0x31 && p[3] == 0x31 && (|p| == 4 || p[4] == 0x3B)
  }

  lemma {:induction false} SegmentMeans(s: seq<Byte>)
    ensures var n := |FirstSegment(s)|;
            && n <= |s| && FirstSegment(s) == s[..n] && (n == |s| || s[n] == 0x3B)
            && forall i :: 0 <= i < n ==> s[i] != 0x3B
  {
    if s != [] && s[0] != SEMI {
      SegmentMeans(s[1..]);
      var n := |FirstSegment(s[1..])|;
      assert s[..n + 1] == [s[0]] + s[1..][..n];
      assert forall i :: 0 < i <= n ==> s[i] == s[1..][i - 1];
    }
  }

  lemma AppMeans(p: seq<Byte>)
    ensures IsApp(p) <==> Is5111(p)
    ensures Is5111(p) ==> Captured(p) == if |p| == 4 then [] else p[5..]
  {
    SegmentMeans(p);
    var n := |FirstSegment(p)|;
    if Is5111(p) {
      assert n == 4;
      assert p[..4] == APP_PREFIX;
    } else if n == 4 {
      assert forall i :: 0 <= i < 4 ==> p[..4][i] == p[i];
    }
  }

  predicate NoEscNoBel(p: seq<Byte>) {
    forall i :: 0 <= i < |p| ==> p[i] != 0x1B && p[i] != 0x07
  }

  lemma {:induction false} PlainPayload(p: seq<Byte>)
    requires NoEscNoBel(p)
    ensures IsPayload(p)
  {
    if p != [] {
      PlainPayload(p[1..]);
    }
  }

  /** Besides plain bytes a payload may hold any pair of an ESC and a byte that does not
      close the OSC, a BEL included. */
  lemma PayloadWithPair(p: seq<Byte>, b: Byte, q: seq<Byte>)
    requires NoEscNoBel(p) && b != 0x5C && NoEscNoBel(q)
    ensures IsPayload(p + [0x1B, b] + q)
  {
    PlainPayload(p);
    PlainPayload(q);
    assert [ESC, b][2..] == [];
    PayloadSnoc(p, [ESC, b]);
    PayloadSnoc(p + [ESC, b], q);
  }

  lemma {:induction false} PlainJunk(p: seq<Byte>)
    requires NoEscNoBel(p)
    ensures IsJunk(p) && !EndsInEsc(p)
  {
    if p != [] {
      PlainJunk(p[..|p| - 1]);
    }
  }

  /** Text without an ESC passes, and so does an ESC with any byte but `]`. */
  lemma {:induction false} PlainText(s: seq<Byte>)
    requires forall i :: 0 <= i < |s| ==> s[i] != 0x1B
    ensures Run(Start, s) == Outcome(Start, s, [])
  {
    hide Run;
    if s == [] {
      RunNothing(Start);
    } else {
      var init := s[..|s| - 1];
      PlainText(init);
      RunOne(Start, s[|s| - 1]);
      RunAppend(Start, init, [s[|s| - 1]]);
      assert s == init + [s[|s| - 1]];
    }
  }

  lemma EscapePair(b: Byte)
    requires b != 0x5D
    ensures Run(Start, [0x1B, b]) == Outcome(Start, [0x1B, b], [])
  {
    hide Run;
    RunTwo(Start, 0x1B, b);
  }

  lemma RunLong(p: seq<Byte>, more: seq<Byte>, term: Terminator)
    requires NoEscNoBel(p) && |p| > 65536 && IsJunk(p[65537..] + more)
    requires term.Bel? ==> !EndsInEsc(p[65537..] + more)
    ensures Run(Start, [0x1B, 0x5D] + p + more + TerminatorBytes(term)) == Outcome(Start, [], [])
  {
    hide Run, IsPayload, IsJunk, EndsInEsc, NoEscNoBel, TerminatorBytes;
    var fit, burst, junk := p[..65536], [p[65536]], p[65537..] + more;
    PlainFit(p);
    assert [ESC, BRACKET] + fit + burst + junk == [0x1B, 0x5D] + p + more by {
      assert p == fit + burst + p[65537..];
    }
    RunToken(TooLong(fit, burst, junk, term));
  }

  lemma PlainFit(p: seq<Byte>)
    requires NoEscNoBel(p) && |p| > 65536
    ensures IsPayload(p[..65536]) && IsBurst(p[..65536], [p[65536]])
    ensures IsJunk(p[65537..]) && !EndsInEsc(p[65537..])
  {
    PlainPayload(p[..65536]);
    PlainJunk(p[65537..]);
  }

  /** An OSC of more than 64 KiB is swallowed up to its terminator and never captured,
      `5111;` or not. */
  lemma LongOsc(p: seq<Byte>, st: bool)
    requires NoEscNoBel(p) && |p| > 65536
    ensures Run(Start, [0x1B, 0x5D] + p + if st then [0x1B, 0x5C] else [0x07]) == Outcome(Start, [], [])
  {
    hide Run, IsJunk, EndsInEsc, NoEscNoBel;
    PlainFit(p);
    assert p[65537..] + [] == p[65537..];
    RunLong(p, [], if st then St else Bel);
    assert [0x1B, 0x5D] + p + [] == [0x1B, 0x5D] + p;
  }

  lemma {:induction false} JunkThenPlain(junk: seq<Byte>, p: seq<Byte>)
    requires IsJunk(junk) && NoEscNoBel(p) && (EndsInEsc(junk) && p != [] ==> p[0] != 0x5C)
    ensures IsJunk(junk + p) && (p != [] ==> !EndsInEsc(junk + p))
    decreases |p|
  {
    if p == [] {
      assert junk + p == junk;
    } else {
      var init, last := p[..|p| - 1], p[|p| - 1];
      JunkThenPlain(junk, init);
      JunkSnoc(junk + init, last);
      assert junk + p == junk + init + [last];
      assert init == [] ==> junk + init == junk;
    }
  }

  /** Past the limit a BEL right after an ESC does not end the OSC. */
  lemma LongOscEscBel(p: seq<Byte>, b: Byte, q: seq<Byte>)
    requires NoEscNoBel(p) && |p| > 65536 && b != 0x1B && b != 0x5C && NoEscNoBel(q)
    ensures Run(Start, [0x1B, 0x5D] + p + ([0x1B] + [b] + q) + [0x07]) == Outcome(Start, [], [])
  {
    hide Run, IsJunk, EndsInEsc;
    var rest := p[65537..];
    PlainFit(p);
    JunkSnoc(rest, 0x1B);
    EndsSo(rest, 0x1B);
    JunkSnoc(rest + [0x1B], b);
    EndsSo(rest + [0x1B], b);
    JunkThenPlain(rest + [0x1B] + [b], q);
    assert q == [] ==> rest + [0x1B] + [b] + q == rest + [0x1B] + [b];
    assert rest + [0x1B] + [b] + q == rest + ([0x1B] + [b] + q);
    RunLong(p, [0x1B] + [b] + q, Bel);
  }

  /** Past the limit the second of two ESCs closes it with a backslash; within it, the two
      are a pair of the payload. */
  lemma LongOscEscEsc(p: seq<Byte>)
    requires NoEscNoBel(p) && |p| > 65536
    ensures Run(Start, [0x1B, 0x5D] + p + [0x1B] + [0x1B, 0x5C]) == Outcome(Start, [], [])
  {
    hide Run, IsJunk, EndsInEsc;
    PlainFit(p);
    JunkSnoc(p[65537..], 0x1B);
    RunLong(p, [0x1B], St);
  }

  lemma EndsSo(s: seq<Byte>, b: Byte)
    ensures EndsInEsc(s + [b]) <==> b == 0x1B
  {
  }

  /** A whole OSC, byte by byte, with either terminator: if its payload is `5111` or begins
      `5111;` it is swallowed and what follows the `;` is captured; any other comes out
      unchanged and nothing is captured. */
  lemma WholeOsc(p: seq<Byte>, st: bool)
    requires IsPayload(p) && |p| <= 65536
    ensures var wire := [0x1B, 0x5D] + p + if st then [0x1B, 0x5C] else [0x07];
            && (Is5111(p) ==> Run(Start, wire) == Outcome(Start, [], [if |p| == 4 then [] else p[5..]]))
            && (!Is5111(p) ==> Run(Start, wire) == Outcome(Start, wire, []))
  {
    hide Run, IsPayload, IsApp, Captured;
    AppMeans(p);
    RunToken(Whole(p, if st then St else Bel));
  }
}

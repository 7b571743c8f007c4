/** `term-dl`, which prints download requests into the terminal, and the agent's side of
    them: from the printed bytes, through the scanner, to the parsed request. */
module TermDl {
  import opened Prelude
  import opened Osc
  import Utf8

  const DL: seq<Byte> := [0x64, 0x6C] // "dl"

  // ---- the printer ---------------------------------------------------------------------

  /** The token characters `term-dl` will echo. */
  predicate TokenOk(token: seq<Byte>) {
    token != [] && forall i :: 0 <= i < |token| ==> IsIdByte(token[i])
  }

  /** `prepare`'s byte check. */
  predicate PathOk(path: seq<Byte>) {
    forall i :: 0 <= i < |path| ==> path[i] != BEL && path[i] != ESC
  }

  /** The payload of a request: `5111;dl;<token>;<path>`. */
  function Request(token: seq<Byte>, path: seq<Byte>): seq<Byte> {
    APP_PREFIX + [SEMI] + DlPayload(token, path)
  }

  function DlPayload(token: seq<Byte>, path: seq<Byte>): seq<Byte> {
    DL + [SEMI] + token + [SEMI] + path
  }

  function Emission(token: seq<Byte>, path: seq<Byte>): seq<Byte> {
    [ESC, BRACKET] + Request(token, path) + [BEL]
  }

  function Emissions(token: seq<Byte>, paths: seq<seq<Byte>>): seq<Byte> {
    if paths == [] then [] else Emission(token, paths[0]) + Emissions(token, paths[1..])
  }

  /** The paths that passed `prepare`. */
  function Prepared(args: seq<Option<seq<Byte>>>): seq<seq<Byte>> {
    if args == [] then []
    else if args[0].Some? && PathOk(args[0].value) then [args[0].value] + Prepared(args[1..])
    else Prepared(args[1..])
  }

  /** `main`'s loop. An argument is None when it is not a readable regular file. The exit
      status saturates at 255. */
  method PrintRequests(token: seq<Byte>, args: seq<Option<seq<Byte>>>) returns (stdout: seq<Byte>, failed: Byte)
    requires TokenOk(token)
    ensures stdout == Emissions(token, Prepared(args))
    ensures failed == Min(255, |args| - |Prepared(args)|)
  {
    stdout, failed := [], 0;
    ghost var failures := 0;
    for i := 0 to |args|
      invariant stdout + Emissions(token, Prepared(args[i..])) == Emissions(token, Prepared(args))
      invariant failures + |args| - i - |Prepared(args[i..])| == |args| - |Prepared(args)|
      invariant failures >= 0 && failed == Min(255, failures)
    {
      assert args[i..][1..] == args[i + 1..];
      if args[i].Some? && PathOk(args[i].value) {
        assert ([args[i].value] + Prepared(args[i + 1..]))[1..] == Prepared(args[i + 1..]);
        stdout := stdout + Emission(token, args[i].value);
      } else {
        failures := failures + 1;
        failed := if failed == 255 then 255 else failed + 1;
      }
    }
  }

  /** What is acceptable, byte by byte: a path may hold anything but BEL and ESC. */
  lemma Acceptable(token: seq<Byte>, path: seq<Byte>)
    ensures PathOk(path) <==> 0x07 !in path && 0x1B !in path
    ensures TokenOk(token) <==>
            && |token| > 0 && forall i :: 0 <= i < |token| ==>
                 var c := token[i] as char;
                 'A' <= c <= 'Z' || 'a' <= c <= 'z' || '0' <= c <= '9' || c == '-' || c == '_'
  {
    forall i | 0 <= i < |token|
      ensures var c := token[i] as char;
              IsIdByte(token[i]) <==> 'A' <= c <= 'Z' || 'a' <= c <= 'z' || '0' <= c <= '9' || c == '-' || c == '_'
    {
      IdBytes(token[i]);
    }
  }

  /** Each argument is printed or not by itself, and in its turn. */
  lemma {:induction false} PreparedAppend(a: seq<Option<seq<Byte>>>, b: seq<Option<seq<Byte>>>)
    ensures Prepared(a + b) == Prepared(a) + Prepared(b)
  {
    if a == [] {
      assert a + b == b;
    } else {
      assert (a + b)[1..] == a[1..] + b;
      PreparedAppend(a[1..], b);
    }
  }

  lemma PreparedOne(path: seq<Byte>)
    ensures Prepared([None]) == []
    ensures Prepared([Some(path)]) == if 0x07 in path || 0x1B in path then [] else [path]
  {
    assert [Some(path)][1..] == [];
  }

  /** What is printed for a path: `ESC ] 5111;dl;<token>;<path> BEL`. */
  lemma EmissionBytes(token: seq<Byte>, path: seq<Byte>)
    ensures Emission(token, path) ==
            [0x1B, 0x5D, 0x35, 0x31, 0x31, 0x31, 0x3B, 0x64, 0x6C, 0x3B] + token + [0x3B] + path + [0x07]
  {
  }

  // ---- the agent's parser --------------------------------------------------------------

  function IndexOf(s: seq<Byte>, b: Byte): (r: Option<nat>)
    ensures r.Some? ==> r.value < |s| && s[r.value] == b && b !in s[..r.value]
    ensures r.None? ==> b !in s
  {
    if s == [] then None
    else if s[0] == b then Some(0)
    else
      match IndexOf(s[1..], b)
      case None => None
      case Some(i) =>
        assert s[..i + 1] == [s[0]] + s[1..][..i];
        Some(i + 1)
  }

  /** `parse_dl_osc`: the token and the path. */
  function ParseDlOsc(payload: seq<Byte>): Option<(seq<Byte>, seq<Byte>)> {
    match IndexOf(payload, SEMI)
    case None => None
    case Some(semi1) =>
      if payload[..semi1] != DL then None
      else
        var rest := payload[semi1 + 1..];
        match IndexOf(rest, SEMI)
        case None => None
        case Some(semi2) =>
          if Utf8.Valid(rest[..semi2]) && Utf8.Valid(rest[semi2 + 1..])
          then Some((rest[..semi2], rest[semi2 + 1..])) else None
  }

  /** The first `;` of a string that starts with a `;`-free part. */
  lemma FirstSemi(a: seq<Byte>, b: seq<Byte>)
    requires SEMI !in a
    ensures IndexOf(a + [SEMI] + b, SEMI) == Some(|a|)
  {
    hide IndexOf;
    var s := a + [SEMI] + b;
    assert s[|a|] == SEMI;
    assert forall k :: 0 <= k < |a| ==> s[k] == a[k];
    assert forall k :: |a| < k <= |s| ==> s[..k][|a|] == SEMI;
  }

  lemma PayloadParts(token: seq<Byte>, path: seq<Byte>)
    ensures var payload, rest := DlPayload(token, path), token + [SEMI] + path;
            payload == DL + [SEMI] + rest && payload[..2] == DL && payload[3..] == rest
  {
    AppendAssoc(DL + [SEMI], token, [SEMI]);
    AppendAssoc(DL + [SEMI], token + [SEMI], path);
    Append(DL + [SEMI], token + [SEMI] + path);
  }

  lemma TokenBytesOk(token: seq<Byte>)
    requires TokenOk(token)
    ensures SEMI !in token && forall i :: 0 <= i < |token| ==> token[i] < 0x80
  {
  }

  /** The agent recovers token and path exactly when the path is text; a `;` in the path is
      part of it. */
  lemma ParseRequest(token: seq<Byte>, path: seq<Byte>)
    requires TokenOk(token)
    ensures ParseDlOsc(DlPayload(token, path)) == if Utf8.Valid(path) then Some((token, path)) else None
  {
    hide Utf8.Valid, ParseDlOsc, DlPayload, IsIdByte;
    TokenBytesOk(token);
    PartsParse(token, path);
    Utf8.AsciiIsValid(token);
  }

  lemma ParsedParts(payload: seq<Byte>)
    requires ParseDlOsc(payload).Some?
    ensures var (token, path) := ParseDlOsc(payload).value;
            && payload == [0x64, 0x6C, 0x3B] + token + [0x3B] + path && 0x3B !in token
            && Utf8.Valid(token) && Utf8.Valid(path)
  {
    hide Utf8.Valid, IndexOf;
    var (token, path) := ParseDlOsc(payload).value;
    var semi1 := IndexOf(payload, SEMI).value;
    var rest := payload[semi1 + 1..];
    assert payload == payload[..semi1] + [payload[semi1]] + rest;
    assert rest == token + [rest[|token|]] + path;
  }

  lemma PartsParse(token: seq<Byte>, path: seq<Byte>)
    requires 0x3B !in token
    ensures ParseDlOsc(DlPayload(token, path)) ==
            if Utf8.Valid(token) && Utf8.Valid(path) then Some((token, path)) else None
  {
    hide Utf8.Valid, IndexOf, DlPayload;
    var rest := token + [SEMI] + path;
    PayloadParts(token, path);
    FirstSemi(DL, rest);
    FirstSemi(token, path);
    assert rest[..|token|] == token && rest[|token| + 1..] == path;
  }

  /** The parser takes exactly `dl;`, a token without `;`, another `;`, and a path, both of
      them text. */
  lemma ParseIff(payload: seq<Byte>, token: seq<Byte>, path: seq<Byte>)
    ensures ParseDlOsc(payload) == Some((token, path)) <==>
            && payload == [0x64, 0x6C, 0x3B] + token + [0x3B] + path && 0x3B !in token
            && Utf8.Valid(token) && Utf8.Valid(path)
  {
    hide Utf8.Valid, ParseDlOsc;
    if ParseDlOsc(payload).Some? {
      ParsedParts(payload);
    }
    if 0x3B !in token {
      PartsParse(token, path);
      assert DlPayload(token, path) == [0x64, 0x6C, 0x3B] + token + [0x3B] + path;
    }
  }

  // ---- through the scanner ---------------------------------------------------------------

  predicate EscFree(s: seq<Byte>) {
    forall i :: 0 <= i < |s| ==> s[i] != ESC
  }

  lemma RequestBytes(token: seq<Byte>, path: seq<Byte>)
    requires TokenOk(token) && PathOk(path)
    ensures var r := Request(token, path); forall i :: 0 <= i < |r| ==> r[i] != BEL && r[i] != ESC
    ensures IsApp(Request(token, path)) && Captured(Request(token, path)) == DlPayload(token, path)
  {
    var d := DlPayload(token, path);
    var q := Request(token, path);
    assert q == APP_PREFIX + [SEMI] + d;
    assert forall i :: 0 <= i < |token| ==> IsIdByte(token[i]);
    assert forall i :: 0 <= i < |d| ==> d[i] != BEL && d[i] != ESC;
    assert q[5..] == d;
    FirstSegmentAt(APP_PREFIX, d);
  }

  lemma {:induction false} FirstSegmentAt(a: seq<Byte>, b: seq<Byte>)
    requires SEMI !in a
    ensures FirstSegment(a + [SEMI] + b) == a
  {
    var s := a + [SEMI] + b;
    if a == [] {
    } else {
      assert s[1..] == a[1..] + [SEMI] + b;
      FirstSegmentAt(a[1..], b);
    }
  }

  /** The token a printed request is: whole when it fits the cap, over-long otherwise. */
  function EmissionToken(token: seq<Byte>, path: seq<Byte>): Token {
    var q := Request(token, path);
    if |q| <= MAX_OSC_LEN then Whole(q, Bel)
    else TooLong(q[..MAX_OSC_LEN], [q[MAX_OSC_LEN]], q[MAX_OSC_LEN + 1..], Bel)
  }

  lemma EmissionIsToken(token: seq<Byte>, path: seq<Byte>)
    requires TokenOk(token) && PathOk(path)
    ensures ValidToken(EmissionToken(token, path)) && TokenBytes(EmissionToken(token, path)) == Emission(token, path)
  {
    hide Request, IsPayload, IsJunk;
    var q := Request(token, path);
    RequestBytes(token, path);
    hide IsApp, Captured, TokenOk, PathOk;
    if |q| <= MAX_OSC_LEN {
      PlainPayload(q);
    } else {
      LongRequest(q);
    }
  }

  lemma LongRequest(q: seq<Byte>)
    requires |q| > MAX_OSC_LEN && forall i :: 0 <= i < |q| ==> q[i] != BEL && q[i] != ESC
    ensures var fit, burst, junk := q[..MAX_OSC_LEN], [q[MAX_OSC_LEN]], q[MAX_OSC_LEN + 1..];
            && IsPayload(fit) && IsBurst(fit, burst) && IsJunk(junk) && !EndsInEsc(junk)
            && [ESC, BRACKET] + fit + burst + junk + [BEL] == [ESC, BRACKET] + q + [BEL]
  {
    hide IsPayload, IsJunk;
    var fit, burst, junk := q[..MAX_OSC_LEN], [q[MAX_OSC_LEN]], q[MAX_OSC_LEN + 1..];
    PlainPayload(fit);
    PlainJunk(junk);
    assert q == fit + burst + junk;
    AppendAssoc([ESC, BRACKET], fit, burst);
    AppendAssoc([ESC, BRACKET], fit + burst, junk);
  }

  /** Scanning a printed request from idle: captured once, nothing shown, if it fits the
      cap; neither captured nor shown if it does not. */
  lemma RunEmission(token: seq<Byte>, path: seq<Byte>)
    requires TokenOk(token) && PathOk(path)
    ensures Run(Start, Emission(token, path)) ==
            Outcome(Start, [], if |Request(token, path)| <= MAX_OSC_LEN then [DlPayload(token, path)] else [])
  {
    hide Run, ValidToken, TokenBytes, Request, Emission, IsApp, Captured;
    EmissionIsToken(token, path);
    RequestBytes(token, path);
    RunToken(EmissionToken(token, path));
  }

  lemma RunText(s: seq<Byte>)
    requires EscFree(s)
    ensures Run(Start, s) == Outcome(Start, s, [])
  {
    PlainText(s);
  }

  /** Terminal output: some text, then a request, and so on, and a last stretch of text. */
  function Transcript(token: seq<Byte>, items: seq<(seq<Byte>, seq<Byte>)>, last: seq<Byte>): seq<Byte> {
    if items == [] then last
    else items[0].0 + (Emission(token, items[0].1) + Transcript(token, items[1..], last))
  }

  function TextOf(items: seq<(seq<Byte>, seq<Byte>)>, last: seq<Byte>): seq<Byte> {
    if items == [] then last else items[0].0 + TextOf(items[1..], last)
  }

  /** The requests that reach the agent, as it parses them. */
  function Delivered(token: seq<Byte>, items: seq<(seq<Byte>, seq<Byte>)>): seq<Option<(seq<Byte>, seq<Byte>)>> {
    if items == [] then []
    else
      var path := items[0].1;
      (if |Request(token, path)| > MAX_OSC_LEN then []
       else if Utf8.Valid(path) then [Some((token, path))] else [None])
      + Delivered(token, items[1..])
  }

  function ParseAll(caps: seq<seq<Byte>>): seq<Option<(seq<Byte>, seq<Byte>)>> {
    if caps == [] then [] else [ParseDlOsc(caps[0])] + ParseAll(caps[1..])
  }

  predicate Printable(items: seq<(seq<Byte>, seq<Byte>)>) {
    forall i :: 0 <= i < |items| ==> EscFree(items[i].0) && PathOk(items[i].1)
  }

  lemma ParseAllCons(cap: seq<Byte>, caps: seq<seq<Byte>>)
    ensures ParseAll([cap] + caps) == [ParseDlOsc(cap)] + ParseAll(caps)
  {
  }

  lemma {:induction false} RunTranscript(token: seq<Byte>, items: seq<(seq<Byte>, seq<Byte>)>, last: seq<Byte>)
    requires TokenOk(token) && Printable(items) && EscFree(last)
    ensures var o := Run(Start, Transcript(token, items, last));
            o.sc == Start && o.out == TextOf(items, last) && ParseAll(o.caps) == Delivered(token, items)
  {
    hide Run, Emission, Request, TokenOk, ParseDlOsc, DlPayload, Utf8.Valid, EscFree, PathOk;
    if items == [] {
      RunText(last);
    } else {
      var (text, path) := items[0];
      var rest := Transcript(token, items[1..], last);
      RunTranscript(token, items[1..], last);
      assert EscFree(text) && PathOk(path);
      RunText(text);
      RunEmission(token, path);
      RunAppend(Start, Emission(token, path), rest);
      RunAppend(Start, text, Emission(token, path) + rest);
      ParseRequest(token, path);
      ParseAllCons(DlPayload(token, path), Run(Start, rest).caps);
      if |Request(token, path)| <= MAX_OSC_LEN {
        assert Run(Start, Transcript(token, items, last)).caps == [DlPayload(token, path)] + Run(Start, rest).caps;
      } else {
        assert Run(Start, Transcript(token, items, last)).caps == Run(Start, rest).caps;
      }
    }
  }

  /** End to end, however the output is cut into feeds: the terminal sees only the
      surrounding text, and the agent parses exactly the requests whose payload fits the
      64 KiB cap, each once and in order, with the token and path that were printed. A path
      that is not UTF-8 is captured but not parsed. */
  lemma RequestsArrive(token: seq<Byte>, items: seq<(seq<Byte>, seq<Byte>)>, last: seq<Byte>, chunks: seq<seq<Byte>>)
    requires TokenOk(token) && Printable(items) && EscFree(last)
    requires Flatten(chunks) == Transcript(token, items, last)
    ensures var o := RunChunks(Start, chunks);
            o.sc == Start && o.out == TextOf(items, last) && ParseAll(o.caps) == Delivered(token, items)
  {
    hide Run, RunChunks, TokenOk, Printable, EscFree, Transcript, Delivered, ParseAll;
    ChunkingIrrelevant(Start, chunks);
    RunTranscript(token, items, last);
  }
}

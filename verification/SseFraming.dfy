/** Server-sent events: the frames handleStream writes and the line reader of
    ChatCompletionStream.  The JSON codec is a parameter. */
module SseFraming {
  import opened Common

  const DONE := "[DONE]"

  // ---------- writing ----------

  function Frame(payload: string): string { "data: " + payload + "\n\n" }

  function Stream(payloads: seq<string>): string {
    if payloads == [] then Frame(DONE) else Frame(payloads[0]) + Stream(payloads[1..])
  }

  // ---------- lines ----------

  /** Position of the first newline, or the length. */
  function Newline(s: string): nat
    ensures Newline(s) <= |s|
  {
    if s == "" || s[0] == '\n' then 0 else 1 + Newline(s[1..])
  }

  function DropCr(line: string): string {
    if line != "" && line[|line| - 1] == '\r' then line[..|line| - 1] else line
  }

  /** The scanner's lines: newline-terminated, one trailing CR dropped, and a last
      unterminated line if it is not empty. */
  function Lines(s: string): seq<string> {
    if s == "" then []
    else
      var k := Newline(s);
      [DropCr(s[..k])] + if k < |s| then Lines(s[k + 1..]) else []
  }

  // ---------- reading ----------

  predicate IsData(line: string) { |line| >= 6 && line[..5] == "data:" }

  /** What follows "data:" and one more character, of the lines that are long enough. */
  function Payloads(lines: seq<string>): seq<string> {
    if lines == [] then []
    else if IsData(lines[0]) then [lines[0][6..]] + Payloads(lines[1..])
    else Payloads(lines[1..])
  }

  function BeforeDone(payloads: seq<string>): seq<string> {
    if payloads == [] || payloads[0] == DONE then [] else [payloads[0]] + BeforeDone(payloads[1..])
  }

  /** The decoded values of the payloads that decode, in order. */
  function Decoded<T>(payloads: seq<string>, decode: string -> Option<T>): seq<T> {
    if payloads == [] then []
    else if decode(payloads[0]).Some? then [decode(payloads[0]).value] + Decoded(payloads[1..], decode)
    else Decoded(payloads[1..], decode)
  }

  /** The reading loop emits exactly the decodable payloads before the first
      "[DONE]", in order, for any lines whatever. */
  method ReadLines<T>(lines: seq<string>, decode: string -> Option<T>) returns (chunks: seq<T>)
    ensures chunks == Decoded(BeforeDone(Payloads(lines)), decode)
  {
    chunks := [];
    var i := 0;
    while i < |lines|
      invariant 0 <= i <= |lines|
      invariant chunks + Decoded(BeforeDone(Payloads(lines[i..])), decode) ==
                Decoded(BeforeDone(Payloads(lines)), decode)
    {
      var line := lines[i];
      assert lines[i..][1..] == lines[i + 1..];
      i := i + 1;
      if |line| < 6 {
        continue;
      }
      if line[..5] != "data:" {
        continue;
      }
      var data := line[6..];
      assert Payloads(lines[i - 1..]) == [data] + Payloads(lines[i..]);
      if data == DONE {
        return;
      }
      assert ([data] + Payloads(lines[i..]))[1..] == Payloads(lines[i..]);
      ghost var rest := BeforeDone(Payloads(lines[i..]));
      assert BeforeDone(Payloads(lines[i - 1..])) == [data] + rest;
      assert ([data] + rest)[1..] == rest;
      var chunk := decode(data);
      if chunk.None? {
        continue;
      }
      chunks := chunks + [chunk.value];
    }
  }

  /** What one line yields: nothing unless it starts with "data:" and goes on, and
      otherwise all that follows the sixth character, whatever that is. */
  lemma {:induction false} LineYields(line: string, rest: seq<string>)
    ensures (forall c: char, p: string :: line != "data:" + [c] + p) ==> Payloads([line] + rest) == Payloads(rest)
    ensures forall c: char, p: string :: line == "data:" + [c] + p ==> Payloads([line] + rest) == [p] + Payloads(rest)
  {
    assert ([line] + rest)[1..] == rest;
    if IsData(line) {
      assert line == "data:" + [line[5]] + line[6..];
    }
    forall c: char, p: string | line == "data:" + [c] + p
      ensures Payloads([line] + rest) == [p] + Payloads(rest)
    {
      assert line[..5] == "data:" && line[6..] == p;
    }
  }

  method WriteStream(payloads: seq<string>) returns (out: string)
    ensures out == Stream(payloads)
    ensures payloads == [] ==> out == "data: [DONE]\n\n"
    ensures payloads != [] ==> out == "data: " + payloads[0] + "\n\n" + Stream(payloads[1..])
  {
    out := "";
    for i := 0 to |payloads|
      invariant out + Stream(payloads[i..]) == Stream(payloads)
    {
      assert payloads[i..][1..] == payloads[i + 1..];
      out := out + ("data: " + payloads[i] + "\n\n");
    }
    out := out + "data: [DONE]\n\n";
  }

  // ---------- reading back what was written ----------

  function Dropped(payloads: seq<string>): seq<string> {
    if payloads == [] then [] else [DropCr(payloads[0])] + Dropped(payloads[1..])
  }

  predicate OneLine(p: string) { '\n' !in p }

  lemma {:induction false} NewlineAfter(a: string, b: string)
    requires OneLine(a)
    ensures Newline(a + "\n" + b) == |a|
  {
    if a != "" {
      NewlineAfter(a[1..], b);
      assert (a + "\n" + b)[1..] == a[1..] + "\n" + b;
    }
  }

  lemma {:induction false} FirstLine(a: string, b: string)
    requires OneLine(a)
    ensures Lines(a + "\n" + b) == [DropCr(a)] + Lines(b)
  {
    var s := a + "\n" + b;
    NewlineAfter(a, b);
    assert s[..|a|] == a && s[|a| + 1..] == b;
  }

  lemma {:induction false} FrameLines(p: string, rest: string)
    requires OneLine(p)
    ensures Lines(Frame(p) + rest) == [DropCr("data: " + p), ""] + Lines(rest)
  {
    var line := "data: " + p;
    assert Frame(p) + rest == line + "\n" + ("\n" + rest);
    FirstLine(line, "\n" + rest);
    EmptyLine(rest);
  }

  lemma {:induction false} EmptyLine(rest: string)
    ensures Lines("\n" + rest) == [""] + Lines(rest)
  {
    assert "\n" + rest == "" + "\n" + rest;
    FirstLine("", rest);
  }

  lemma {:induction false} FramePayload(p: string, lines: seq<string>)
    ensures Payloads([DropCr("data: " + p), ""] + lines) == [DropCr(p)] + Payloads(lines)
  {
    var line := DropCr("data: " + p);
    assert line == "data: " + DropCr(p);
    var all := [line, ""] + lines;
    assert all[1..] == [""] + lines && ([""] + lines)[1..] == lines;
    assert line[..5] == "data:" && line[6..] == DropCr(p);
  }

  /** One-line payloads come back in order, each less one trailing CR, followed by
      the end marker. */
  lemma {:induction false} StreamPayloads(ps: seq<string>)
    requires forall i :: 0 <= i < |ps| ==> OneLine(ps[i])
    ensures Payloads(Lines(Stream(ps))) == Dropped(ps) + [DONE]
  {
    if ps == [] {
      assert Frame(DONE) + "" == Frame(DONE);
      FrameLines(DONE, "");
      FramePayload(DONE, Lines(""));
    } else {
      StreamPayloads(ps[1..]);
      FrameLines(ps[0], Stream(ps[1..]));
      FramePayload(ps[0], Lines(Stream(ps[1..])));
    }
  }

  /** The payloads the reader passes to the decoder. */
  function ReadBack(s: string): seq<string> { BeforeDone(Payloads(Lines(s))) }

  /** Survives framing: one line, no trailing CR, not the end marker. */
  predicate Safe(p: string) { '\n' !in p && (p == "" || p[|p| - 1] != '\r') && p != "[DONE]" }


  lemma {:induction false} BeforeMarker(ps: seq<string>)
    ensures BeforeDone(ps + [DONE]) == BeforeDone(ps)
  {
    if ps != [] && ps[0] != DONE {
      BeforeMarker(ps[1..]);
      assert (ps + [DONE])[1..] == ps[1..] + [DONE];
    }
  }

  lemma {:induction false} SafeComesBack(ps: seq<string>)
    ensures BeforeDone(Dropped(ps)) == ps <==> forall i :: 0 <= i < |ps| ==> DropCr(ps[i]) == ps[i] && ps[i] != DONE
  {
    if ps != [] {
      var d := Dropped(ps);
      assert d[0] == DropCr(ps[0]) && d[1..] == Dropped(ps[1..]);
      SafeComesBack(ps[1..]);
      if BeforeDone(d) == ps {
        assert ps == [d[0]] + BeforeDone(d[1..]);
        assert ps[1..] == BeforeDone(d[1..]);
      }
      if forall i :: 0 <= i < |ps| ==> DropCr(ps[i]) == ps[i] && ps[i] != DONE {
        assert ps == [ps[0]] + ps[1..];
      }
    }
  }

  lemma {:induction false} NewlineIsFirst(s: string)
    ensures OneLine(s[..Newline(s)])
  {
    if s != "" && s[0] != '\n' {
      NewlineIsFirst(s[1..]);
      assert s[..Newline(s)] == [s[0]] + s[1..][..Newline(s[1..])];
    }
  }

  lemma {:induction false} LinesAreOneLine(s: string)
    ensures forall i :: 0 <= i < |Lines(s)| ==> OneLine(Lines(s)[i])
    decreases |s|
  {
    if s != "" {
      var k := Newline(s);
      NewlineIsFirst(s);
      if k < |s| { LinesAreOneLine(s[k + 1..]); }
    }
  }

  lemma {:induction false} ReadIsOneLine(lines: seq<string>)
    requires forall i :: 0 <= i < |lines| ==> OneLine(lines[i])
    ensures forall i :: 0 <= i < |Payloads(lines)| ==> OneLine(Payloads(lines)[i])
  {
    if lines != [] { ReadIsOneLine(lines[1..]); }
  }

  lemma {:induction false} BeforeDoneIsPrefix(ps: seq<string>)
    ensures BeforeDone(ps) <= ps
  {
    if ps != [] && ps[0] != DONE { BeforeDoneIsPrefix(ps[1..]); }
  }

  /** The framing round trip, exactly: reading a written stream gives the same
      payloads if and only if every one of them is safe. */
  lemma {:induction false} RoundTripIffSafe(ps: seq<string>)
    ensures ReadBack(Stream(ps)) == ps <==> forall i :: 0 <= i < |ps| ==> Safe(ps[i])
  {
    if forall i :: 0 <= i < |ps| ==> OneLine(ps[i]) {
      StreamPayloads(ps);
      BeforeMarker(Dropped(ps));
      SafeComesBack(ps);
    } else {
      var i :| 0 <= i < |ps| && !OneLine(ps[i]);
      var lines := Lines(Stream(ps));
      LinesAreOneLine(Stream(ps));
      ReadIsOneLine(lines);
      BeforeDoneIsPrefix(Payloads(lines));
      assert !Safe(ps[i]);
      assert |ReadBack(Stream(ps))| > i ==> ReadBack(Stream(ps))[i] == Payloads(lines)[i];
    }
  }

  function Encoded<T>(chunks: seq<T>, encode: T -> string): seq<string> {
    if chunks == [] then [] else [encode(chunks[0])] + Encoded(chunks[1..], encode)
  }

  lemma {:induction false} CodecRoundTrip<T>(chunks: seq<T>, encode: T -> string, decode: string -> Option<T>)
    requires forall i :: 0 <= i < |chunks| ==> decode(encode(chunks[i])) == Some(chunks[i])
    ensures Decoded(Encoded(chunks, encode), decode) == chunks
  {
    if chunks != [] {
      CodecRoundTrip(chunks[1..], encode, decode);
      assert Encoded(chunks, encode)[1..] == Encoded(chunks[1..], encode);
      assert chunks == [chunks[0]] + chunks[1..];
    }
  }

  lemma {:induction false} EncodedEach<T>(chunks: seq<T>, encode: T -> string)
    ensures |Encoded(chunks, encode)| == |chunks|
    ensures forall i :: 0 <= i < |chunks| ==> Encoded(chunks, encode)[i] == encode(chunks[i])
  {
    if chunks != [] { EncodedEach(chunks[1..], encode); }
  }

  /** Chunk for chunk: with a codec that inverts itself and writes safe payloads,
      what one gateway streams the next one reads. */
  lemma {:induction false} ChunksRoundTrip<T>(chunks: seq<T>, encode: T -> string, decode: string -> Option<T>)
    requires forall i :: 0 <= i < |chunks| ==> decode(encode(chunks[i])) == Some(chunks[i]) && Safe(encode(chunks[i]))
    ensures Decoded(ReadBack(Stream(Encoded(chunks, encode))), decode) == chunks
  {
    CodecRoundTrip(chunks, encode, decode);
    EncodedEach(chunks, encode);
    RoundTripIffSafe(Encoded(chunks, encode));
  }
}

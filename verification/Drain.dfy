/** Streaming capture of one child stream: bytes in arbitrary chunks to text lines. */
module Drain {
  import opened Seqs
  import opened Wrappers
  import opened Utf8

  const LF: char := '\n'
  const CR: char := '\r'

  function WithoutTrailingCr(line: string): string {
    if line != "" && line[|line| - 1] == CR then line[..|line| - 1] else line
  }

  /** The finished lines of a text and its unterminated tail. */
  datatype Cut = Cut(lines: seq<string>, tail: string)

  function CutLines(text: string): Cut
    decreases |text|
  {
    var i := IndexOf(text, LF);
    if i == |text| then Cut([], text)
    else
      var more := CutLines(text[i + 1..]);
      Cut([WithoutTrailingCr(text[..i]) + [LF]] + more.lines, more.tail)
  }

  function Pieces(cut: Cut): seq<string> {
    if cut.tail == "" then cut.lines else cut.lines + [cut.tail]
  }

  /** What is captured of a whole text: every finished line, then a non-empty tail as it is. */
  function CapturedText(text: string): seq<string> {
    Pieces(CutLines(text))
  }

  /** What is captured of a whole byte stream. */
  function Captured(stream: seq<Byte>): seq<string> {
    CapturedText(Decode(stream, true).text)
  }

  lemma IndexOfPrefix(text: string, more: string, c: char)
    requires IndexOf(text, c) < |text|
    ensures IndexOf(text + more, c) == IndexOf(text, c)
  {
    var i, j := IndexOf(text, c), IndexOf(text + more, c);
    assert (text + more)[i] == c;
    assert j < |text| ==> (text + more)[j] == text[j];
  }

  /** Cutting a text that arrives in two pieces: the second is cut behind the first one's tail. */
  lemma {:induction false} CutInTwoPieces(text: string, more: string)
    ensures var first := CutLines(text);
      var second := CutLines(first.tail + more);
      CutLines(text + more) == Cut(first.lines + second.lines, second.tail)
    decreases |text|
  {
    var i := IndexOf(text, LF);
    if i < |text| {
      var rest := text[i + 1..];
      CutInTwoPieces(rest, more);
      FirstLineOfConcat(text, more, i);
      CutAfterLine(text, i);
      PrependLine(WithoutTrailingCr(text[..i]) + [LF], CutLines(rest).lines,
                  CutLines(CutLines(rest).tail + more).lines);
    } else {
      var whole := CutLines(text + more);
      assert [] + whole.lines == whole.lines;
    }
  }

  lemma PrependLine<T>(line: T, a: seq<T>, b: seq<T>)
    ensures [line] + (a + b) == ([line] + a) + b
  {
  }

  lemma FirstLineOfConcat(text: string, more: string, i: nat)
    requires i == IndexOf(text, LF) < |text|
    ensures CutLines(text + more).lines
         == [WithoutTrailingCr(text[..i]) + [LF]] + CutLines(text[i + 1..] + more).lines
    ensures CutLines(text + more).tail == CutLines(text[i + 1..] + more).tail
  {
    IndexOfPrefix(text, more, LF);
    SplitConcat(text, more, i);
    CutAfterLine(text + more, i);
  }

  lemma SplitConcat<T>(s: seq<T>, t: seq<T>, i: nat)
    requires i < |s|
    ensures (s + t)[..i] == s[..i] && (s + t)[i + 1..] == s[i + 1..] + t
  {
  }

  lemma CutAfterLine(text: string, i: nat)
    requires i == IndexOf(text, LF) < |text|
    ensures CutLines(text).lines == [WithoutTrailingCr(text[..i]) + [LF]] + CutLines(text[i + 1..]).lines
    ensures CutLines(text).tail == CutLines(text[i + 1..]).tail
  {
  }

  /** The tail holds no newline, so it is cut no further. */
  lemma {:induction false} TailHasNoNewline(text: string)
    ensures LF !in CutLines(text).tail
    decreases |text|
  {
    var i := IndexOf(text, LF);
    if i < |text| {
      TailHasNoNewline(text[i + 1..]);
    }
  }

  lemma NoNewlineNoCut(text: string)
    requires LF !in text
    ensures CutLines(text) == Cut([], text)
  {
    assert IndexOf(text, LF) == |text|;
  }

  /** `CR LF` becomes `LF`, nothing else changes: read character by character. */
  function NormalNewlines(text: string): string {
    if text == "" then ""
    else if |text| > 1 && text[0] == CR && text[1] == LF then NormalNewlines(text[1..])
    else [text[0]] + NormalNewlines(text[1..])
  }

  predicate NoCrLf(text: string) {
    forall k :: 0 <= k < |text| - 1 ==> !(text[k] == '\r' && text[k + 1] == '\n')
  }

  /** Without a carriage return before a newline a text is as it should be. */
  lemma {:induction false} NormalAlready(text: string)
    requires NoCrLf(text)
    ensures NormalNewlines(text) == text
  {
    if text == "" {
    } else {
      NormalAlready(text[1..]);
    }
  }

  /** One that stands before a newline goes, and the texts around it are dealt with by themselves. */
  lemma {:induction false} NormalAroundCrLf(a: string, b: string)
    ensures NormalNewlines(a + "\r\n" + b) == NormalNewlines(a) + "\n" + NormalNewlines(b)
  {
    var text := a + "\r\n" + b;
    if a == "" {
      assert text == "\r\n" + b && text[1..] == "\n" + b && text[1..][1..] == b;
      assert "" + "\n" == "\n";
    } else {
      NormalAroundCrLf(a[1..], b);
      assert text[1..] == a[1..] + "\r\n" + b;
      assert |a| > 1 ==> text[1] == a[1];
      assert |a| == 1 ==> text[1] == '\r';
      Associate([a[0]], NormalNewlines(a[1..]), "\n" + NormalNewlines(b));
      Associate(NormalNewlines(a[1..]), "\n", NormalNewlines(b));
      Associate(NormalNewlines(a), "\n", NormalNewlines(b));
    }
  }

  lemma {:induction false} NormalNewlinesOfLine(line: string, rest: string)
    requires LF !in line && rest != "" && rest[0] == LF
    ensures NormalNewlines(line + rest) == WithoutTrailingCr(line) + NormalNewlines(rest)
  {
    if line == "" {
      assert line + rest == rest && WithoutTrailingCr(line) == "";
    } else {
      CutFront(line, rest, 1);
      if line == [CR] {
        assert line[1..] + rest == rest;
      } else {
        NormalNewlinesOfLine(line[1..], rest);
        WithoutCrBehindHead(line);
        NormalNewlinesStep(line, rest);
        Associate([line[0]], WithoutTrailingCr(line[1..]), NormalNewlines(rest));
      }
    }
  }

  lemma NormalNewlinesStep(line: string, rest: string)
    requires LF !in line && line != "" && line != [CR]
    ensures NormalNewlines(line + rest) == [line[0]] + NormalNewlines(line[1..] + rest)
  {
    CutFront(line, rest, 1);
    assert |line| > 1 ==> (line + rest)[1] == line[1];
  }

  lemma WithoutCrBehindHead(line: string)
    requires line != "" && line != [CR]
    ensures WithoutTrailingCr(line) == [line[0]] + WithoutTrailingCr(line[1..])
  {
    HeadAndTail(line);
  }

  lemma {:induction false} NormalNewlinesWithoutNewline(text: string)
    requires LF !in text
    ensures NormalNewlines(text) == text
  {
    if text == "" {
    } else {
      NormalNewlinesWithoutNewline(text[1..]);
    }
  }

  /** A text with a newline is its first line, the newline, and the rest. */
  lemma FirstLine(text: string) returns (line: string, more: string)
    requires IndexOf(text, LF) < |text|
    ensures text == line + [LF] + more && LF !in line
    ensures |more| < |text|
  {
    var i := IndexOf(text, LF);
    line, more := text[..i], text[i + 1..];
  }

  lemma NormalNewlinesFront(line: string, more: string)
    requires LF !in line
    ensures NormalNewlines(line + [LF] + more) == WithoutTrailingCr(line) + [LF] + NormalNewlines(more)
  {
    var rest := [LF] + more;
    NormalNewlinesOfLine(line, rest);
    assert rest[1..] == more;
    Associate(line, [LF], more);
    Associate(WithoutTrailingCr(line), [LF], NormalNewlines(more));
  }

  lemma CutOfLine(line: string, more: string)
    requires LF !in line
    ensures CutLines(line + [LF] + more)
         == Cut([WithoutTrailingCr(line) + [LF]] + CutLines(more).lines, CutLines(more).tail)
  {
    var text := line + [LF] + more;
    assert text[|line|] == LF && forall k :: 0 <= k < |line| ==> text[k] == line[k];
    assert IndexOf(text, LF) == |line|;
    assert text[..|line|] == line && text[|line| + 1..] == more;
  }

  lemma CapturedFront(line: string, more: string)
    requires LF !in line
    ensures CapturedText(line + [LF] + more) == [WithoutTrailingCr(line) + [LF]] + CapturedText(more)
  {
    CutOfLine(line, more);
    PrependPieces(WithoutTrailingCr(line) + [LF], CutLines(more));
  }

  lemma PrependPieces(line: string, cut: Cut)
    ensures Pieces(Cut([line] + cut.lines, cut.tail)) == [line] + Pieces(cut)
  {
    Associate([line], cut.lines, [cut.tail]);
  }

  lemma ConcatFront<T>(first: seq<T>, more: seq<seq<T>>)
    ensures Concat([first] + more) == first + Concat(more)
  {
    assert ([first] + more)[1..] == more;
  }

  /** Nothing is lost and nothing is invented: the captured pieces join to the text with its
      line endings normalised. */
  lemma {:induction false} CaptureJoins(text: string)
    ensures Concat(CapturedText(text)) == NormalNewlines(text)
    decreases |text|
  {
    if IndexOf(text, LF) == |text| {
      NormalNewlinesWithoutNewline(text);
      NoNewlineNoCut(text);
      ConcatOfOne(text);
    } else {
      var line, more := FirstLine(text);
      CaptureJoins(more);
      CapturedFront(line, more);
      NormalNewlinesFront(line, more);
      ConcatFront(WithoutTrailingCr(line) + [LF], CapturedText(more));
    }
  }

  predicate IsLine(piece: string) {
    piece != "" && piece[|piece| - 1] == LF && LF !in piece[..|piece| - 1]
  }

  lemma LineIsLine(line: string)
    requires LF !in line
    ensures IsLine(WithoutTrailingCr(line) + [LF])
  {
    var piece := WithoutTrailingCr(line) + [LF];
    assert piece[..|piece| - 1] == WithoutTrailingCr(line);
  }

  /** Each piece ends in its only newline, but the last may have none. */
  predicate AreLines(pieces: seq<string>) {
    pieces == []
    || (IsLine(pieces[0]) && AreLines(pieces[1..]))
    || (|pieces| == 1 && pieces[0] != "" && LF !in pieces[0])
  }

  lemma AreLinesBehind(first: string, more: seq<string>)
    requires IsLine(first) && AreLines(more)
    ensures AreLines([first] + more)
  {
    assert ([first] + more)[1..] == more;
  }

  /** The captured pieces are lines. */
  lemma {:induction false} CaptureIsLines(text: string)
    ensures AreLines(CapturedText(text))
    decreases |text|
  {
    if IndexOf(text, LF) < |text| {
      var line, more := FirstLine(text);
      CaptureIsLines(more);
      CapturedFront(line, more);
      LineIsLine(line);
      AreLinesBehind(WithoutTrailingCr(line) + [LF], CapturedText(more));
    } else {
      NoNewlineNoCut(text);
    }
  }

  /** The two list arguments of a drain: the captured pieces and what the mirror was given. */
  class Sink {
    var lines: seq<string>
    var mirrored: seq<string>

    constructor ()
      ensures lines == [] && mirrored == []
    {
      lines, mirrored := [], [];
    }
  }

  function Labelled(prefix: string, pieces: seq<string>): seq<string> {
    seq(|pieces|, i requires 0 <= i < |pieces| => prefix + pieces[i])
  }

  /** The mirror is given every piece behind the label, in the same order. */
  lemma LabelledAt(prefix: string, pieces: seq<string>)
    ensures |Labelled(prefix, pieces)| == |pieces|
    ensures forall k :: 0 <= k < |pieces| ==> Labelled(prefix, pieces)[k] == prefix + pieces[k]
  {
  }

  /** The sink after the given pieces were emitted to one that held `lines` and `mirrored`. */
  ghost predicate Received(lines: seq<string>, mirrored: seq<string>, sink: Sink, prefix: string,
                           pieces: seq<string>)
    reads sink
  {
    sink.lines == lines + pieces && sink.mirrored == mirrored + Labelled(prefix, pieces)
  }

  /** The drain's `emit`: one piece to the capture and, labelled, to the mirror. */
  method Emit(sink: Sink, prefix: string, piece: string,
              ghost lines: seq<string>, ghost mirrored: seq<string>, ghost emitted: seq<string>)
    requires Received(lines, mirrored, sink, prefix, emitted)
    modifies sink
    ensures sink.lines == old(sink.lines) + [piece]
    ensures sink.mirrored == old(sink.mirrored) + [prefix + piece]
    ensures Received(lines, mirrored, sink, prefix, emitted + [piece])
  {
    sink.lines := sink.lines + [piece];
    sink.mirrored := sink.mirrored + [prefix + piece];
  }

  /** Emits every finished line of the pending text and keeps its tail. */
  method EmitLines(text: string, sink: Sink, prefix: string,
                   ghost lines: seq<string>, ghost mirrored: seq<string>, ghost emitted: seq<string>)
    returns (pending: string)
    requires Received(lines, mirrored, sink, prefix, emitted)
    modifies sink
    ensures pending == CutLines(text).tail
    ensures Received(lines, mirrored, sink, prefix, emitted + CutLines(text).lines)
  {
    pending := text;
    ghost var sent := emitted;
    while LF in pending
      invariant emitted + CutLines(text).lines == sent + CutLines(pending).lines
      invariant CutLines(text).tail == CutLines(pending).tail
      invariant Received(lines, mirrored, sink, prefix, sent)
      decreases |pending|
    {
      var i := IndexOf(pending, LF);
      var piece := WithoutTrailingCr(pending[..i]) + [LF];
      CutAfterLine(pending, i);
      MoveLine(sent, piece, CutLines(pending[i + 1..]).lines);
      Emit(sink, prefix, piece, lines, mirrored, sent);
      sent := sent + [piece];
      pending := pending[i + 1..];
    }
    NoNewlineNoCut(pending);
    assert sent + [] == sent;
  }

  lemma MoveLine<T>(front: seq<T>, line: T, back: seq<T>)
    ensures front + ([line] + back) == (front + [line]) + back
  {
  }

  /** Drains a stream, given as the non-empty chunks its reads return before the end of file;
      `None` is a stream that was not piped. Whatever the chunks, the sink receives what the
      whole stream holds. */
  method DrainStream(stream: Option<seq<seq<Byte>>>, sink: Sink, prefix: string)
    requires stream.Some? ==> forall c :: c in stream.value ==> c != []
    modifies sink
    ensures stream.None? ==> sink.lines == old(sink.lines) && sink.mirrored == old(sink.mirrored)
    ensures stream.Some? ==>
      Received(old(sink.lines), old(sink.mirrored), sink, prefix, Captured(Concat(stream.value)))
  {
    if stream.None? {
      return;
    }
    var decoder := new IncrementalDecoder();
    var pending := ReadChunks(stream.value, decoder, sink, prefix);
    EndOfFile(decoder, pending, sink, prefix, old(sink.lines), old(sink.mirrored));
  }

  /** The end of the file: the decoder is flushed and what is left is emitted. */
  method EndOfFile(decoder: IncrementalDecoder, tail: string, sink: Sink, prefix: string,
                   ghost lines: seq<string>, ghost mirrored: seq<string>)
    requires decoder.Valid() && tail == CutLines(decoder.emitted).tail
    requires Received(lines, mirrored, sink, prefix, CutLines(decoder.emitted).lines)
    modifies decoder, sink
    ensures Received(lines, mirrored, sink, prefix, Captured(old(decoder.fed)))
  {
    ghost var bytes, text := decoder.fed, decoder.emitted;
    assert bytes + [] == bytes;
    var flushed := decoder.Feed([], true);
    Finish(bytes, text, flushed);
    var pending := tail + flushed;
    if pending != "" {
      Emit(sink, prefix, pending, lines, mirrored, CutLines(text).lines);
    } else {
      assert CutLines(text).lines + [] == CutLines(text).lines;
    }
  }

  /** The read loop up to the end of file: finished lines are emitted, the tail is kept. */
  method ReadChunks(chunks: seq<seq<Byte>>, decoder: IncrementalDecoder, sink: Sink, prefix: string)
    returns (pending: string)
    requires decoder.Valid() && decoder.fed == []
    modifies decoder, sink
    ensures decoder.Valid() && decoder.fed == Concat(chunks)
    ensures pending == CutLines(Decode(Concat(chunks), false).text).tail
    ensures Received(old(sink.lines), old(sink.mirrored), sink, prefix,
                     CutLines(Decode(Concat(chunks), false).text).lines)
  {
    pending := "";
    for next := 0 to |chunks|
      invariant decoder.Valid() && decoder.fed == Concat(chunks[..next])
      invariant pending == CutLines(decoder.emitted).tail
      invariant Received(old(sink.lines), old(sink.mirrored), sink, prefix, CutLines(decoder.emitted).lines)
    {
      AppendChunk(chunks, next);
      ghost var text := decoder.emitted;
      var decoded := decoder.Feed(chunks[next], false);
      CutInTwoPieces(text, decoded);
      pending :=
        EmitLines(pending + decoded, sink, prefix, old(sink.lines), old(sink.mirrored), CutLines(text).lines);
    }
    assert chunks[..|chunks|] == chunks;
  }

  lemma AppendChunk<T>(chunks: seq<seq<T>>, next: nat)
    requires next < |chunks|
    ensures Concat(chunks[..next + 1]) == Concat(chunks[..next]) + chunks[next]
  {
    assert chunks[..next + 1] == chunks[..next] + [chunks[next]];
    ConcatAppend(chunks[..next], chunks[next]);
  }

  lemma SameTail<T>(front: seq<T>, a: seq<T>, b: seq<T>)
    requires front + a == front + b
    ensures a == b
  {
    assert a == (front + a)[|front|..];
    assert b == (front + b)[|front|..];
  }

  /** At end of file: flushing the decoder completes the text, and its tail stays one piece. */
  lemma Finish(seen: seq<Byte>, text: string, flushed: string)
    requires text == Decode(seen, false).text
    requires text + flushed == Decode(seen, true).text
    ensures Captured(seen) == CutLines(text).lines
      + if CutLines(text).tail + flushed == "" then [] else [CutLines(text).tail + flushed]
  {
    DecodeInTwoCalls(seen, [], true);
    assert seen + [] == seen && Decode(seen, false).rest + [] == Decode(seen, false).rest;
    FlushReplacesTheRest(seen);
    SameTail(text, flushed, Decode(Decode(seen, false).rest, true).text);
    CutInTwoPieces(text, flushed);
    TailHasNoNewline(text);
    NoNewlineNoCut(CutLines(text).tail + flushed);
  }

  /** Text written as UTF-8 is captured as that text, line endings normalised, and nothing else. */
  lemma EncodedTextIsCaptured(text: string)
    ensures Concat(Captured(EncodeAll(text))) == NormalNewlines(text)
  {
    EncodeThenDecode(text, [], true);
    assert EncodeAll(text) + [] == EncodeAll(text) && text + "" == text;
    CaptureJoins(text);
  }
}

/** The streaming decoder inside `sendMessage`: a line buffer over the
    decoded chunks of a response body in which each complete line is one
    JSON object whose `response` field is appended to the running reply.

    `TextDecoder` is not modelled (the chunks arrive already decoded) and
    neither is `JSON.parse`: a line is handed to an oracle that says whether
    it parsed and, if so, what its `response` field holds. */
module LineDecoder {
  import opened Wrappers
  import opened Text

  const Newline: char := '\n'

  /** What parsing one line gave. `Malformed` covers every way the
      source's `JSON.parse(line)` followed by `json.response` can throw;
      `Parsed(None)` is a line whose `response` is falsy (absent, empty,
      `0`, `false` or `null`), and `Parsed(Some(t))` carries the string
      form `t` of a truthy one. */
  datatype LineParse = Malformed | Parsed(response: Option<string>)

  type LineOracle = string -> LineParse

  /** The decoder's running state: `content` is the source's
      `fullContent`, `totals` lists every value passed to
      `updateLastAssistant(fullContent, true)` so far, in order, and `ok`
      turns false once a line has failed to parse (the source throws). */
  datatype Decode = Decode(content: string, totals: seq<string>, ok: bool)

  const Start: Decode := Decode([], [], true)

  /** What one complete line does to the reply. */
  datatype LineEffect = Skip | Append(text: string) | Fail

  /** A whitespace-only line is skipped before it is parsed; a line that
      does not parse is fatal; a line whose `response` is absent or empty
      is skipped (the empty string is falsy); otherwise its `response` is
      appended. */
  function EffectOf(line: string, parse: LineOracle): LineEffect {
    // `!line.trim()`: the trimmed line is empty exactly when the line is all
    // whitespace (the contract of `Trim`).
    if AllSpace(line, JsSpace) then Skip
    else match parse(line)
      case Malformed => Fail
      case Parsed(None) => Skip
      case Parsed(Some(t)) => if t == [] then Skip else Append(t)
  }

  /** One turn of the inner `for` loop. */
  function LineStep(d: Decode, line: string, parse: LineOracle): Decode {
    match EffectOf(line, parse)
    case Skip => d
    case Fail => d.(ok := false)
    case Append(t) => Decode(d.content + t, d.totals + [d.content + t], d.ok)
  }

  /** Feeds complete lines to the decoder, left to right, stopping at the
      first line that fails. */
  function FoldLines(d: Decode, lines: seq<string>, parse: LineOracle): Decode
  {
    if lines == [] then d
    else
      var before := FoldLines(d, lines[..|lines| - 1], parse);
      if !before.ok then before else LineStep(before, lines[|lines| - 1], parse)
  }

  /** All chunks of the body in arrival order, concatenated. */
  function Concat(chunks: seq<string>): string {
    if chunks == [] then [] else Concat(chunks[..|chunks| - 1]) + chunks[|chunks| - 1]
  }

  /** The lines of `s` that a newline terminates; the text after the last
      newline is not among them. */
  function CompleteLines(s: string): seq<string> {
    Init(Split(s, Newline))
  }

  /** What the decoder makes of a whole body: the complete lines of the
      concatenated chunks, fed in order. This is the reference the
      chunk-by-chunk loop is proved against: where the chunk boundaries fall
      does not matter, and the text after the last newline is never looked
      at. */
  function StreamSpec(chunks: seq<string>, parse: LineOracle): Decode {
    FoldLines(Start, CompleteLines(Concat(chunks)), parse)
  }

  /** One chunk arriving: `buffer += chunk`, split on newlines, and keep the
      last piece as the new buffer (`lines.pop() || ''`). The complete lines
      and the new buffer hold no newline, and joining them with newlines
      gives back the old buffer followed by the chunk. */
  function Feed(buffer: string, chunk: string): (r: (seq<string>, string))
    ensures Newline !in r.1
    ensures forall k :: 0 <= k < |r.0| ==> Newline !in r.0[k]
    ensures Join(r.0 + [r.1], Newline) == buffer + chunk
  {
    var pieces := Split(buffer + chunk, Newline);
    JoinSplit(buffer + chunk, Newline);
    SplitPiecesFree(buffer + chunk, Newline);
    assert Init(pieces) + [Last(pieces)] == pieces;
    (Init(pieces), Last(pieces))
  }

  /** The streaming loop of `sendMessage` (the `while (true)` over
      `reader.read()` with the inner `for` over `lines`), run over the
      chunks of a body that ends normally. Returns the decoder state when
      the loop stops (at the end of the body or at the first line that fails
      to parse) and the buffer it leaves unread. */
  method ReadStream(chunks: seq<string>, parse: LineOracle) returns (d: Decode, buffer: string)
    ensures d == StreamSpec(chunks, parse)
    ensures d.ok ==> buffer == Last(Split(Concat(chunks), Newline))
  {
    buffer := [];
    d := Start;
    ghost var done: seq<string> := [];
    var i := 0;
    while i < |chunks|
      invariant 0 <= i <= |chunks|
      invariant d.ok
      invariant done + [buffer] == Split(Concat(chunks[..i]), Newline)
      invariant d == FoldLines(Start, done, parse)
    {
      var fed := Feed(buffer, chunks[i]);
      var lines, rest := fed.0, fed.1;
      FeedExtends(chunks, i, done, buffer);
      buffer := rest;
      ghost var before := d;
      var j := 0;
      while j < |lines|
        invariant 0 <= j <= |lines|
        invariant d.ok
        invariant d == FoldLines(before, lines[..j], parse)
      {
        assert lines[..j + 1][..j] == lines[..j];
        d := LineStep(d, lines[j], parse);
        if !d.ok {
          LineFailureSettles(chunks, i, done, lines, j, parse);
          return;
        }
        j := j + 1;
      }
      assert lines[..|lines|] == lines;
      FoldLinesAppend(Start, done, lines, parse);
      done := done + lines;
      i := i + 1;
    }
    assert chunks[..|chunks|] == chunks;
  }

  /** What `Feed` does to the pieces of the body read so far: the new
      complete lines are appended, and the new buffer becomes the last piece. */
  lemma {:induction false} FeedExtends(chunks: seq<string>, i: int, done: seq<string>, buffer: string)
    requires 0 <= i < |chunks|
    requires done + [buffer] == Split(Concat(chunks[..i]), Newline)
    ensures done + Feed(buffer, chunks[i]).0 + [Feed(buffer, chunks[i]).1]
         == Split(Concat(chunks[..i + 1]), Newline)
    ensures CompleteLines(Concat(chunks[..i + 1])) == done + Feed(buffer, chunks[i]).0
  {
    FeedPieces(chunks, i, done, buffer);
    var pieces := Split(buffer + chunks[i], Newline);
    assert Feed(buffer, chunks[i]) == (Init(pieces), Last(pieces));
    SnocPieces(done, pieces);
  }

  /** The pieces of the body after chunk `i` are the complete lines before
      it followed by the pieces of the buffer and the chunk. */
  lemma {:induction false} FeedPieces(chunks: seq<string>, i: int, done: seq<string>, buffer: string)
    requires 0 <= i < |chunks|
    requires done + [buffer] == Split(Concat(chunks[..i]), Newline)
    ensures Split(Concat(chunks[..i + 1]), Newline) == done + Split(buffer + chunks[i], Newline)
  {
    var x, c := Concat(chunks[..i]), chunks[i];
    assert chunks[..i + 1] == chunks[..i] + [c];
    ConcatSnoc(chunks[..i], c);
    assert Concat(chunks[..i + 1]) == x + c;
    SplitAppend(x, c, Newline);
    assert Init(done + [buffer]) == done && Last(done + [buffer]) == buffer;
  }

  /** List bookkeeping: splitting off the last of the pieces appended to
      `done`. */
  lemma {:induction false} SnocPieces(done: seq<string>, pieces: seq<string>)
    requires |pieces| >= 1
    ensures done + Init(pieces) + [Last(pieces)] == done + pieces
    ensures Init(done + pieces) == done + Init(pieces)
  {
    assert Init(pieces) + [Last(pieces)] == pieces;
  }

  /** A line of chunk `i` that fails to parse decides the whole body. */
  lemma {:induction false} LineFailureSettles(
    chunks: seq<string>, i: int, done: seq<string>, lines: seq<string>, j: int, parse: LineOracle)
    requires 0 <= i < |chunks| && 0 <= j < |lines|
    requires CompleteLines(Concat(chunks[..i + 1])) == done + lines
    requires !FoldLines(FoldLines(Start, done, parse), lines[..j + 1], parse).ok
    ensures StreamSpec(chunks, parse) == FoldLines(FoldLines(Start, done, parse), lines[..j + 1], parse)
  {
    var fed, more := lines[..j + 1], lines[j + 1..];
    FoldLinesAppend(Start, done, fed, parse);
    assert fed + more == lines;
    assert (done + fed) + more == done + (fed + more);
    PrefixSettles(chunks, i, done + fed, more, parse);
  }

  /** Splitting after more text only refines the last piece: the complete
      lines of `x` are a prefix of the complete lines of `x + y`, and the
      rest come from the last piece of `x` followed by `y`. */
  lemma {:induction false} CompleteLinesAppend(x: string, y: string)
    ensures CompleteLines(x + y) == CompleteLines(x) + CompleteLines(Last(Split(x, Newline)) + y)
  {
    SplitAppend(x, y, Newline);
    var u := Split(Last(Split(x, Newline)) + y, Newline);
    assert Init(Init(Split(x, Newline)) + u) == Init(Split(x, Newline)) + Init(u);
  }

  /** The lines the loop has fed after chunk `i` are a prefix of the
      complete lines of the whole body; once the decoder has failed on such a
      prefix the outcome of the whole body is that failure. */
  lemma {:induction false} PrefixSettles(chunks: seq<string>, i: int, fed: seq<string>, more: seq<string>, parse: LineOracle)
    requires 0 <= i < |chunks|
    requires fed + more == CompleteLines(Concat(chunks[..i + 1]))
    requires !FoldLines(Start, fed, parse).ok
    ensures StreamSpec(chunks, parse) == FoldLines(Start, fed, parse)
  {
    var x, y := Concat(chunks[..i + 1]), Concat(chunks[i + 1..]);
    ConcatSplitAt(chunks, i + 1);
    CompleteLinesAppend(x, y);
    var rest := CompleteLines(Last(Split(x, Newline)) + y);
    var failed := FoldLines(Start, fed, parse);
    assert CompleteLines(Concat(chunks)) == (fed + more) + rest;
    FoldLinesAppend(Start, fed + more, rest, parse);
    FoldLinesAppend(Start, fed, more, parse);
    FoldLinesFailed(failed, more, parse);
    FoldLinesFailed(failed, rest, parse);
  }

  /** Concatenating all chunks is concatenating those before `i` and those
      from `i` on. */
  lemma {:induction false} ConcatSplitAt(chunks: seq<string>, i: int)
    requires 0 <= i <= |chunks|
    ensures Concat(chunks) == Concat(chunks[..i]) + Concat(chunks[i..])
    decreases |chunks| - i
  {
    if i < |chunks| {
      ConcatSplitAt(chunks, i + 1);
      assert chunks[..i + 1][..i] == chunks[..i];
      assert Concat(chunks[..i + 1]) == Concat(chunks[..i]) + chunks[i];
      ConcatCons(chunks[i..]);
      assert chunks[i..][1..] == chunks[i + 1..];
    } else {
      assert chunks[..i] == chunks;
    }
  }

  /** `Concat` peels from the front as well as from the back. */
  lemma {:induction false} ConcatCons(chunks: seq<string>)
    requires chunks != []
    ensures Concat(chunks) == chunks[0] + Concat(chunks[1..])
    decreases |chunks|
  {
    var n := |chunks|;
    if n > 1 {
      var front := chunks[..n - 1];
      ConcatCons(front);
      var tail := chunks[1..];
      assert tail[..|tail| - 1] == front[1..];
      assert tail[|tail| - 1] == chunks[n - 1];
      assert Concat(tail) == Concat(front[1..]) + chunks[n - 1];
      assert Concat(chunks) == Concat(front) + chunks[n - 1];
      assert front[0] == chunks[0];
    } else {
      assert chunks[1..] == [];
      assert chunks[..0] == [];
    }
  }

  /** Feeding two runs of lines one after the other is feeding their
      concatenation. */
  lemma {:induction false} FoldLinesAppend(d: Decode, a: seq<string>, b: seq<string>, parse: LineOracle)
    ensures FoldLines(d, a + b, parse) == FoldLines(FoldLines(d, a, parse), b, parse)
    decreases |b|
  {
    if b == [] {
      assert a + b == a;
    } else {
      var b' := b[..|b| - 1];
      FoldLinesAppend(d, a, b', parse);
      assert (a + b)[..|a + b| - 1] == a + b';
      assert (a + b)[|a + b| - 1] == b[|b| - 1];
    }
  }

  /** A failed decoder ignores every further line. */
  lemma {:induction false} FoldLinesFailed(d: Decode, lines: seq<string>, parse: LineOracle)
    requires !d.ok
    ensures FoldLines(d, lines, parse) == d
    decreases |lines|
  {
    if lines != [] {
      FoldLinesFailed(d, lines[..|lines| - 1], parse);
    }
  }

  /** The text a line adds to the reply: its `response` when it is
      appended, nothing otherwise. */
  function Contribution(line: string, parse: LineOracle): string {
    match EffectOf(line, parse)
    case Append(t) => t
    case _ => []
  }

  /** The texts of `lines` added up in order. */
  function Accumulated(lines: seq<string>, parse: LineOracle): string {
    if lines == [] then []
    else Accumulated(lines[..|lines| - 1], parse) + Contribution(lines[|lines| - 1], parse)
  }

  /** No line of `lines` fails to parse. */
  predicate AllParse(lines: seq<string>, parse: LineOracle) {
    forall k :: 0 <= k < |lines| ==> EffectOf(lines[k], parse) != Fail
  }

  /** Every reported total is a proper prefix of the next one, and the last
      one is the current content: what the user sees only ever grows. */
  predicate Chained(d: Decode) {
    && (forall k :: 0 <= k < |d.totals| - 1 ==> d.totals[k] < d.totals[k + 1])
    && (d.totals != [] ==> d.totals[|d.totals| - 1] == d.content)
  }

  /** The skip rules: a whitespace-only line, and a line whose `response`
      is absent or empty, leave the decoder exactly as it was; a line with a
      non-empty `response` makes the new content the old content followed by
      that text and reports the new content; a non-blank line that does not
      parse stops the decoder with its content unchanged. */
  lemma {:induction false} LineStepRules(d: Decode, line: string, parse: LineOracle)
    ensures JsTrim(line) == [] ==> LineStep(d, line, parse) == d
    ensures parse(line) == Parsed(None) || parse(line) == Parsed(Some([])) ==> LineStep(d, line, parse) == d
    ensures JsTrim(line) != [] && parse(line).Parsed? && parse(line).response.Some?
              && parse(line).response.value != [] ==>
              var t := parse(line).response.value;
              LineStep(d, line, parse) == Decode(d.content + t, d.totals + [d.content + t], d.ok)
    ensures JsTrim(line) != [] && parse(line) == Malformed ==>
              LineStep(d, line, parse) == d.(ok := false)
    ensures LineStep(d, line, parse).ok <==> d.ok && EffectOf(line, parse) != Fail
  {
  }

  /** Feeding lines to a decoder that is still ok: it stays ok exactly when
      every line parses, and then its content has become the old content
      followed by the texts of the lines, in order. */
  lemma {:induction false} FoldLinesMeaning(d: Decode, lines: seq<string>, parse: LineOracle)
    requires d.ok
    ensures FoldLines(d, lines, parse).ok <==> AllParse(lines, parse)
    ensures AllParse(lines, parse) ==>
              FoldLines(d, lines, parse).content == d.content + Accumulated(lines, parse)
    decreases |lines|
  {
    if lines != [] {
      var front := lines[..|lines| - 1];
      FoldLinesMeaning(d, front, parse);
      AllParseSnoc(lines, parse);
    }
  }

  /** `AllParse` holds of a non-empty list exactly when it holds of all but
      the last line and of the last line. */
  lemma {:induction false} AllParseSnoc(lines: seq<string>, parse: LineOracle)
    requires lines != []
    ensures AllParse(lines, parse) <==>
      AllParse(lines[..|lines| - 1], parse) && EffectOf(lines[|lines| - 1], parse) != Fail
  {
    var front := lines[..|lines| - 1];
    if AllParse(front, parse) && EffectOf(lines[|lines| - 1], parse) != Fail {
      forall k | 0 <= k < |lines| ensures EffectOf(lines[k], parse) != Fail {
        if k < |front| { assert lines[k] == front[k]; }
      }
    }
  }

  /** Feeding lines only ever extends what was shown: the old content is a
      prefix of the new one, the old list of reported totals is a prefix of
      the new list, and the totals stay chained. */
  lemma {:induction false} FoldLinesGrows(d: Decode, lines: seq<string>, parse: LineOracle)
    requires Chained(d)
    ensures d.content <= FoldLines(d, lines, parse).content
    ensures d.totals <= FoldLines(d, lines, parse).totals
    ensures Chained(FoldLines(d, lines, parse))
    decreases |lines|
  {
    if lines != [] {
      var front := lines[..|lines| - 1];
      FoldLinesGrows(d, front, parse);
      var before := FoldLines(d, front, parse);
      if before.ok {
        LineStepGrows(before, lines[|lines| - 1], parse);
      }
    }
  }

  lemma {:induction false} LineStepGrows(d: Decode, line: string, parse: LineOracle)
    requires Chained(d)
    ensures d.content <= LineStep(d, line, parse).content
    ensures d.totals <= LineStep(d, line, parse).totals
    ensures Chained(LineStep(d, line, parse))
  {
    match EffectOf(line, parse)
    case Append(t) => AppendGrows(d, t);
    case _ =>
  }

  /** Appending a non-empty text keeps the totals chained. */
  lemma {:induction false} AppendGrows(d: Decode, t: string)
    requires Chained(d) && t != []
    ensures var r := Decode(d.content + t, d.totals + [d.content + t], d.ok);
      d.content <= r.content && d.totals <= r.totals && Chained(r)
  {
    var r := Decode(d.content + t, d.totals + [d.content + t], d.ok);
    assert d.content < d.content + t;
    forall k | 0 <= k < |r.totals| - 1 ensures r.totals[k] < r.totals[k + 1] {
      if k < |d.totals| - 1 {
        assert r.totals[k] == d.totals[k] && r.totals[k + 1] == d.totals[k + 1];
      } else {
        assert r.totals[k] == d.content && r.totals[k + 1] == d.content + t;
      }
    }
  }

  /** What a whole body decodes to: it decodes without error exactly when
      every complete line parses, and the final content is then the texts of
      the complete lines added up; the totals shown while streaming grow by
      prefix and end at the final content. */
  lemma {:induction false} StreamMeaning(chunks: seq<string>, parse: LineOracle)
    ensures var lines := CompleteLines(Concat(chunks));
      && (StreamSpec(chunks, parse).ok <==> AllParse(lines, parse))
      && (StreamSpec(chunks, parse).ok ==> StreamSpec(chunks, parse).content == Accumulated(lines, parse))
    ensures Chained(StreamSpec(chunks, parse))
  {
    var lines := CompleteLines(Concat(chunks));
    FoldLinesMeaning(Start, lines, parse);
    FoldLinesGrows(Start, lines, parse);
    assert [] + Accumulated(lines, parse) == Accumulated(lines, parse);
  }

  lemma {:induction false} ConcatSnoc(chunks: seq<string>, tail: string)
    ensures Concat(chunks + [tail]) == Concat(chunks) + tail
  {
    assert (chunks + [tail])[..|chunks|] == chunks;
  }

  /** The end of the body does not flush the buffer: a last chunk that holds
      no newline changes nothing, whatever text it carries. */
  lemma {:induction false} TrailingPartialDiscarded(chunks: seq<string>, tail: string, parse: LineOracle)
    requires Newline !in tail
    ensures StreamSpec(chunks + [tail], parse) == StreamSpec(chunks, parse)
  {
    var x := Concat(chunks);
    ConcatSnoc(chunks, tail);
    CompleteLinesAppend(x, tail);
    var p := Last(Split(x, Newline));
    SplitPiecesFree(x, Newline);
    assert Newline !in p + tail;
    SplitFree(p + tail, Newline);
    assert CompleteLines(p + tail) == [];
    assert CompleteLines(x + tail) == CompleteLines(x);
  }
}

/** Text operations the core relies on: trimming whitespace (JavaScript's
    `String.prototype.trim` in the frontend, Python's `str.strip` in the
    backend) and splitting a string on a separator character as JavaScript's
    `String.prototype.split` does. */
module Text {

  /** Which language's notion of whitespace a trim uses. */
  datatype Whitespace = JsSpace | PySpace

  /** The space separators (Unicode category Zs) and the control and line
      characters both languages treat as whitespace. */
  const CommonSpaces: seq<char> :=
    ['\t', '\n', '\U{B}', '\U{C}', '\r', ' ', '\U{A0}', '\U{1680}',
     '\U{2000}', '\U{2001}', '\U{2002}', '\U{2003}', '\U{2004}', '\U{2005}',
     '\U{2006}', '\U{2007}', '\U{2008}', '\U{2009}', '\U{200A}',
     '\U{2028}', '\U{2029}', '\U{202F}', '\U{205F}', '\U{3000}']

  /** What JavaScript's `trim` removes: the WhiteSpace and LineTerminator
      productions of ECMAScript, which add the byte order mark. */
  const JsSpaces: seq<char> := CommonSpaces + ['\U{FEFF}']

  /** What Python's `str.strip()` removes (the characters for which
      `str.isspace()` holds), which add the information separators
      U+001C..U+001F and U+0085. */
  const PySpaces: seq<char> := CommonSpaces + ['\U{1C}', '\U{1D}', '\U{1E}', '\U{1F}', '\U{85}']

  /** `c` is one of `cs`. */
  predicate Member(c: char, cs: seq<char>) {
    cs != [] && (c == cs[0] || Member(c, cs[1..]))
  }

  predicate IsSpace(ws: Whitespace, c: char) {
    match ws
    case JsSpace => Member(c, JsSpaces)
    case PySpace => Member(c, PySpaces)
  }

  /** Every character of `s` is whitespace. */
  predicate AllSpace(s: string, ws: Whitespace) {
    forall k :: 0 <= k < |s| ==> IsSpace(ws, s[k])
  }

  /** `r` is `s` with its leading and trailing whitespace removed: `r` is the
      slice `s[i..j]`, everything before `i` and from `j` on is whitespace,
      and `r` neither starts nor ends with whitespace. */
  ghost predicate IsTrimOf(s: string, r: string, ws: Whitespace) {
    exists i, j :: TrimBounds(s, r, ws, i, j)
  }

  ghost predicate TrimBounds(s: string, r: string, ws: Whitespace, i: int, j: int) {
    && 0 <= i <= j <= |s|
    && r == s[i..j]
    && (forall k :: 0 <= k < i ==> IsSpace(ws, s[k]))
    && (forall k :: j <= k < |s| ==> IsSpace(ws, s[k]))
    && (r != [] ==> !IsSpace(ws, r[0]) && !IsSpace(ws, r[|r| - 1]))
  }

  /** The number of leading whitespace characters. */
  function LeadingSpaces(s: string, ws: Whitespace): (n: nat)
    ensures n <= |s|
    ensures forall k :: 0 <= k < n ==> IsSpace(ws, s[k])
    ensures n < |s| ==> !IsSpace(ws, s[n])
  {
    if s == [] || !IsSpace(ws, s[0]) then 0 else 1 + LeadingSpaces(s[1..], ws)
  }

  /** The index just past the last non-whitespace character (0 if none). */
  function ContentEnd(s: string, ws: Whitespace): (n: nat)
    ensures n <= |s|
    ensures forall k :: n <= k < |s| ==> IsSpace(ws, s[k])
    ensures n > 0 ==> !IsSpace(ws, s[n - 1])
  {
    if s == [] || !IsSpace(ws, s[|s| - 1]) then |s| else ContentEnd(s[..|s| - 1], ws)
  }

  /** Removes leading and trailing whitespace; the result is empty exactly
      when the input is all whitespace. */
  function Trim(s: string, ws: Whitespace): (r: string)
    ensures r == [] <==> AllSpace(s, ws)
  {
    var i := LeadingSpaces(s, ws);
    var j := ContentEnd(s, ws);
    if i < j then s[i..j] else []
  }

  /** `Trim` removes exactly the leading and trailing whitespace. */
  lemma {:induction false} TrimIsTrimOf(s: string, ws: Whitespace)
    ensures IsTrimOf(s, Trim(s, ws), ws)
  {
    var i := LeadingSpaces(s, ws);
    var j := ContentEnd(s, ws);
    if i < j {
      TrimBoundsCore(s, ws);
    } else {
      TrimBoundsBlank(s, ws);
    }
  }

  lemma {:induction false} TrimBoundsCore(s: string, ws: Whitespace)
    requires LeadingSpaces(s, ws) < ContentEnd(s, ws)
    ensures TrimBounds(s, Trim(s, ws), ws, LeadingSpaces(s, ws), ContentEnd(s, ws))
  {
    var i := LeadingSpaces(s, ws);
    var j := ContentEnd(s, ws);
    var r := s[i..j];
    assert r[0] == s[i];
    assert r[|r| - 1] == s[j - 1];
  }

  lemma {:induction false} TrimBoundsBlank(s: string, ws: Whitespace)
    requires LeadingSpaces(s, ws) >= ContentEnd(s, ws)
    ensures TrimBounds(s, Trim(s, ws), ws, ContentEnd(s, ws), ContentEnd(s, ws))
  {
    var j := ContentEnd(s, ws);
    assert s[j..j] == [];
  }

  /** JavaScript's `s.trim()`. */
  function JsTrim(s: string): string {
    Trim(s, JsSpace)
  }

  /** Python's `s.strip()`. */
  function PyStrip(s: string): string {
    Trim(s, PySpace)
  }

  /** `IsTrimOf` determines the trimmed string uniquely, so `Trim` is the only
      function meeting its contract. */
  lemma {:induction false} TrimOfUnique(s: string, r1: string, r2: string, ws: Whitespace)
    requires IsTrimOf(s, r1, ws) && IsTrimOf(s, r2, ws)
    ensures r1 == r2
  {
    var i1, j1 :| TrimBounds(s, r1, ws, i1, j1);
    var i2, j2 :| TrimBounds(s, r2, ws, i2, j2);
    if r1 != [] && r2 != [] {
      TrimBoundsTight(s, r1, ws, i1, j1);
      TrimBoundsTight(s, r2, ws, i2, j2);
    }
  }

  /** A non-empty trim starts at the first non-space and ends after the last. */
  lemma {:induction false} TrimBoundsTight(s: string, r: string, ws: Whitespace, i: int, j: int)
    requires TrimBounds(s, r, ws, i, j) && r != []
    ensures i == LeadingSpaces(s, ws) && j == ContentEnd(s, ws)
  {
    assert s[i] == r[0] && s[j - 1] == r[|r| - 1];
  }

  /** Trimming twice removes nothing more. */
  lemma {:induction false} TrimIdempotent(s: string, ws: Whitespace)
    ensures Trim(Trim(s, ws), ws) == Trim(s, ws)
  {
    var r := Trim(s, ws);
    TrimIsTrimOf(s, ws);
    TrimIsTrimOf(r, ws);
    assert r[0..|r|] == r;
    assert TrimBounds(r, r, ws, 0, |r|);
    TrimOfUnique(r, r, Trim(r, ws), ws);
  }

  /** JavaScript's `split(sep)`: the pieces between occurrences of `sep`, in
      order; there is always at least one piece (the empty string gives
      `[""]`). */
  function Split(s: string, sep: char): (r: seq<string>)
    ensures |r| >= 1
  {
    if s == [] then [[]]
    else
      var rest := Split(s[1..], sep);
      if s[0] == sep then [[]] + rest
      else [[s[0]] + rest[0]] + rest[1..]
  }

  /** No piece of a split contains the separator. */
  lemma {:induction false} SplitPiecesFree(s: string, sep: char)
    ensures forall k :: 0 <= k < |Split(s, sep)| ==> sep !in Split(s, sep)[k]
  {
    if s != [] {
      SplitPiecesFree(s[1..], sep);
      var rest := Split(s[1..], sep);
      if s[0] != sep {
        assert Split(s, sep)[0] == [s[0]] + rest[0];
      }
    }
  }

  /** JavaScript's `parts.join(sep)`. */
  function Join(parts: seq<string>, sep: char): string {
    if |parts| == 0 then []
    else if |parts| == 1 then parts[0]
    else parts[0] + [sep] + Join(parts[1..], sep)
  }

  /** All pieces but the last: the text before each separator. */
  function Init(parts: seq<string>): seq<string>
    requires |parts| >= 1
  {
    parts[..|parts| - 1]
  }

  /** The last piece: the text after the last separator. */
  function Last(parts: seq<string>): string
    requires |parts| >= 1
  {
    parts[|parts| - 1]
  }

  /** Joining the pieces of a split gives back the string. */
  lemma {:induction false} JoinSplit(s: string, sep: char)
    ensures Join(Split(s, sep), sep) == s
  {
    if s != [] {
      var rest := Split(s[1..], sep);
      JoinSplit(s[1..], sep);
      if s[0] == sep {
        assert Split(s, sep)[1..] == rest;
      } else {
        var r := Split(s, sep);
        assert r[1..] == rest[1..];
        if |rest| > 1 {
          assert rest == [rest[0]] + rest[1..];
        }
      }
    }
  }

  /** A string without `sep` is split into itself. */
  lemma {:induction false} SplitFree(p: string, sep: char)
    requires sep !in p
    ensures Split(p, sep) == [p]
  {
    if p != [] {
      assert p[0] != sep;
      SplitFree(p[1..], sep);
      assert [p[0]] + p[1..] == p;
    }
  }

  /** A separator after a separator-free prefix ends the first piece. */
  lemma {:induction false} SplitAfterPiece(p: string, sep: char, t: string)
    requires sep !in p
    ensures Split(p + [sep] + t, sep) == [p] + Split(t, sep)
  {
    if p == [] {
      assert p + [sep] + t == [sep] + t;
      assert ([sep] + t)[1..] == t;
    } else {
      var s := p + [sep] + t;
      assert s[0] == p[0] && s[0] != sep;
      assert s[1..] == p[1..] + [sep] + t;
      SplitAfterPiece(p[1..], sep, t);
      assert [p[0]] + p[1..] == p;
    }
  }

  /** Splitting inverts joining, for a non-empty list of separator-free
      pieces. */
  lemma {:induction false} SplitJoin(parts: seq<string>, sep: char)
    requires |parts| >= 1
    requires forall k :: 0 <= k < |parts| ==> sep !in parts[k]
    ensures Split(Join(parts, sep), sep) == parts
  {
    if |parts| == 1 {
      SplitFree(parts[0], sep);
    } else {
      SplitJoin(parts[1..], sep);
      SplitAfterPiece(parts[0], sep, Join(parts[1..], sep));
      assert [parts[0]] + parts[1..] == parts;
    }
  }

  /** One step of `Split`: a separator starts a new piece, any other
      character joins the first piece. */
  lemma {:induction false} SplitCons(c: char, t: string, sep: char)
    ensures Split([c] + t, sep) ==
      if c == sep then [[]] + Split(t, sep)
      else [[c] + Split(t, sep)[0]] + Split(t, sep)[1..]
  {
    assert ([c] + t)[1..] == t;
  }

  /** Appending text to a string only extends its last piece: the complete
      pieces stay as they were, and the last piece is split again together
      with what was appended. This is why a line buffer that keeps only the
      trailing partial piece loses nothing. */
  lemma {:induction false} SplitAppend(x: string, y: string, sep: char)
    ensures Split(x + y, sep) == Init(Split(x, sep)) + Split(Last(Split(x, sep)) + y, sep)
  {
    if x == [] {
      assert x + y == y;
    } else {
      var x0, rest := x[0], x[1..];
      assert x == [x0] + rest;
      assert x + y == [x0] + (rest + y);
      SplitAppend(rest, y, sep);
      SplitAppendStep(x0, rest, y, sep);
    }
  }

  /** The inductive step of `SplitAppend`, split by the first character and
      by whether the rest of `x` holds a separator. */
  lemma {:induction false} SplitAppendStep(x0: char, rest: string, y: string, sep: char)
    requires Split(rest + y, sep) == Init(Split(rest, sep)) + Split(Last(Split(rest, sep)) + y, sep)
    ensures Split([x0] + (rest + y), sep)
         == Init(Split([x0] + rest, sep)) + Split(Last(Split([x0] + rest, sep)) + y, sep)
  {
    SplitCons(x0, rest, sep);
    SplitCons(x0, rest + y, sep);
    if x0 == sep {
      SplitAppendAtSep(x0, rest, y, sep);
    } else if |Split(rest, sep)| == 1 {
      SplitAppendOnePiece(x0, rest, y, sep);
    } else {
      SplitAppendPieces(x0, rest, y, sep);
    }
  }

  lemma {:induction false} SplitAppendAtSep(x0: char, rest: string, y: string, sep: char)
    requires x0 == sep
    requires Split(rest + y, sep) == Init(Split(rest, sep)) + Split(Last(Split(rest, sep)) + y, sep)
    requires Split([x0] + rest, sep) == [[]] + Split(rest, sep)
    requires Split([x0] + (rest + y), sep) == [[]] + Split(rest + y, sep)
    ensures Split([x0] + (rest + y), sep)
         == Init(Split([x0] + rest, sep)) + Split(Last(Split([x0] + rest, sep)) + y, sep)
  {
    var t := Split(rest, sep);
    var u := Split(Last(t) + y, sep);
    ListFacts(t, u);
  }

  /** List bookkeeping for a split whose first piece is empty. */
  lemma {:induction false} ListFacts(t: seq<string>, u: seq<string>)
    requires |t| >= 1
    ensures Init([[]] + t) == [[]] + Init(t)
    ensures Last([[]] + t) == Last(t)
    ensures [[]] + (Init(t) + u) == ([[]] + Init(t)) + u
  {
  }

  lemma {:induction false} SplitAppendOnePiece(x0: char, rest: string, y: string, sep: char)
    requires x0 != sep && |Split(rest, sep)| == 1
    requires Split(rest + y, sep) == Init(Split(rest, sep)) + Split(Last(Split(rest, sep)) + y, sep)
    requires Split([x0] + rest, sep) == [[x0] + Split(rest, sep)[0]] + Split(rest, sep)[1..]
    requires Split([x0] + (rest + y), sep) == [[x0] + Split(rest + y, sep)[0]] + Split(rest + y, sep)[1..]
    ensures Split([x0] + (rest + y), sep)
         == Init(Split([x0] + rest, sep)) + Split(Last(Split([x0] + rest, sep)) + y, sep)
  {
    var t := Split(rest, sep);
    var p := Last(t);
    assert Split(rest + y, sep) == Split(p + y, sep);
    assert Split([x0] + rest, sep) == [[x0] + p];
    SplitCons(x0, p + y, sep);
    assert [x0] + p + y == [x0] + (p + y);
  }

  lemma {:induction false} SplitAppendPieces(x0: char, rest: string, y: string, sep: char)
    requires x0 != sep && |Split(rest, sep)| > 1
    requires Split(rest + y, sep) == Init(Split(rest, sep)) + Split(Last(Split(rest, sep)) + y, sep)
    requires Split([x0] + rest, sep) == [[x0] + Split(rest, sep)[0]] + Split(rest, sep)[1..]
    requires Split([x0] + (rest + y), sep) == [[x0] + Split(rest + y, sep)[0]] + Split(rest + y, sep)[1..]
    ensures Split([x0] + (rest + y), sep)
         == Init(Split([x0] + rest, sep)) + Split(Last(Split([x0] + rest, sep)) + y, sep)
  {
    var t := Split(rest, sep);
    var u := Split(Last(t) + y, sep);
    SplitAppendLongTail(x0, t, u);
    assert Last([[x0] + t[0]] + t[1..]) == Last(t);
  }

  /** The list bookkeeping of `SplitAppend` when the first piece is complete. */
  lemma {:induction false} SplitAppendLongTail(x0: char, t: seq<string>, u: seq<string>)
    requires |t| > 1
    ensures var a := Init(t) + u;
      [[x0] + a[0]] + a[1..] == Init([[x0] + t[0]] + t[1..]) + u
  {
    var a := Init(t) + u;
    assert a[0] == t[0];
    assert a[1..] == Init(t)[1..] + u;
    assert Init([[x0] + t[0]] + t[1..]) == [[x0] + t[0]] + Init(t)[1..];
  }
}

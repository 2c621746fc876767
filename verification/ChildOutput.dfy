/** Child output: the line splitter over a fixed buffer, and the repeat compressor. */
module ChildOutput {
  import opened Bytes

  const BUFFER_SIZE := 2048

  /** What is logged for one child stream. */
  datatype Entry = Line(text: Text) | Repeating | Repeated(times: nat) | Truncated(text: Text)

  // ------------------------------------------------------------------ the byte automaton

  /** A piece of output: a full line without its newline, or a piece cut at buffer size. */
  datatype Piece = Full(text: Text) | Cut(text: Text) {
    function Bytes(): Text {
      if Full? then text + [NEWLINE] else text
    }
  }

  /** One byte arrives behind the unfinished line `rest`. */
  function SplitByte(rest: Text, b: Byte): (Text, seq<Piece>) {
    if b == NEWLINE then ([], [Full(rest)])
    else if |rest| + 1 == BUFFER_SIZE - 1 then ([], [Cut(rest + [b])])
    else (rest + [b], [])
  }

  /** The split of a stream that does not depend on how it is read. */
  function Split(rest: Text, s: Text): (Text, seq<Piece>) {
    if s == [] then (rest, [])
    else
      var (r, ps) := Split(rest, s[..|s| - 1]);
      var (r', qs) := SplitByte(r, s[|s| - 1]);
      (r', ps + qs)
  }

  function Concat(ps: seq<Piece>): Text {
    if ps == [] then [] else Concat(ps[..|ps| - 1]) + ps[|ps| - 1].Bytes()
  }

  lemma ConcatOneMore(ps: seq<Piece>, p: Piece)
    ensures Concat(ps + [p]) == Concat(ps) + p.Bytes()
  {
    assert (ps + [p])[..|ps|] == ps;
  }

  lemma Regroup(a: Text, b: Text, c: Text)
    ensures a + b + c == a + (b + c)
  {
  }

  lemma {:induction false} ConcatAppend(a: seq<Piece>, b: seq<Piece>)
    ensures Concat(a + b) == Concat(a) + Concat(b)
  {
    hide Concat;
    if b == [] {
      assert a + b == a && Concat(a) + [] == Concat(a);
      ConcatNothing();
    } else {
      var init, last := b[..|b| - 1], b[|b| - 1];
      ConcatAppend(a, init);
      ConcatOneMore(a + init, last);
      ConcatOneMore(init, last);
      assert b == init + [last] && a + b == a + init + [last];
      Regroup(Concat(a), Concat(init), last.Bytes());
    }
  }

  lemma SplitByteConserves(rest: Text, b: Byte)
    ensures Concat(SplitByte(rest, b).1) + SplitByte(rest, b).0 == rest + [b]
  {
    var ps := SplitByte(rest, b).1;
    if ps != [] { assert ps[..0] == []; }
  }

  lemma Glue(p: Text, r: Text, q: Text, r': Text, rest: Text, init: Text, b: Byte)
    requires p + r == rest + init && q + r' == r + [b]
    ensures p + q + r' == rest + (init + [b])
  {
    assert p + q + r' == p + (q + r');
    assert p + (r + [b]) == (p + r) + [b];
    assert (rest + init) + [b] == rest + (init + [b]);
  }

  /** Nothing is lost: pieces and leftover are the stream. */
  lemma {:induction false} SplitConserves(rest: Text, s: Text)
    ensures Concat(Split(rest, s).1) + Split(rest, s).0 == rest + s
  {
    hide SplitByte, Concat;
    if s == [] {
      assert Concat([]) == [] by { ConcatNothing(); }
      assert [] + rest == rest + s;
    } else {
      var init, b := s[..|s| - 1], s[|s| - 1];
      SplitConserves(rest, init);
      var r, ps := Split(rest, init).0, Split(rest, init).1;
      SplitByteConserves(r, b);
      ConcatAppend(ps, SplitByte(r, b).1);
      Glue(Concat(ps), r, Concat(SplitByte(r, b).1), SplitByte(r, b).0, rest, init, b);
      assert init + [b] == s;
    }
  }

  lemma ConcatNothing()
    ensures Concat([]) == []
  {
  }

  predicate PieceSize(p: Piece) {
    if p.Cut? then |p.text| == BUFFER_SIZE - 1 else |p.text| < BUFFER_SIZE - 1
  }

  /** Pieces are cut at exactly 2047 bytes; lines and the leftover are shorter, so the buffer
    always has room for one more byte and its terminating NUL. */
  lemma {:induction false} SplitSizes(rest: Text, s: Text)
    requires |rest| < BUFFER_SIZE - 1
    ensures |Split(rest, s).0| < 2047
    ensures forall p <- Split(rest, s).1 :: PieceSize(p) && if p.Cut? then |p.text| == 2047 else |p.text| < 2047
  {
    if s != [] { SplitSizes(rest, s[..|s| - 1]); }
  }

  lemma {:induction false} NoNewlineInside(rest: Text, s: Text)
    requires forall i :: 0 <= i < |rest| ==> rest[i] != NEWLINE
    ensures var (r, ps) := Split(rest, s);
            && (forall i :: 0 <= i < |r| ==> r[i] != NEWLINE)
            && forall p <- ps :: forall i :: 0 <= i < |p.text| ==> p.text[i] != NEWLINE
  {
    if s != [] { NoNewlineInside(rest, s[..|s| - 1]); }
  }

  predicate OneLine(s: Text) {
    forall i :: 0 <= i < |s| ==> s[i] != NEWLINE
  }

  /** Text without a newline stays unfinished, or is cut when it fills the buffer. */
  lemma {:induction false} SplitPlain(s: Text)
    requires OneLine(s) && |s| < BUFFER_SIZE
    ensures Split([], s) == if |s| < BUFFER_SIZE - 1 then (s, []) else ([], [Cut(s)])
  {
    if s != [] {
      var init, none: seq<Piece> := s[..|s| - 1], [];
      SplitPlain(init);
      assert init + [s[|s| - 1]] == s && none + none == none && none + [Cut(s)] == [Cut(s)];
    }
  }

  /** Text that ends in its only newline is a line. */
  lemma SplitLine(s: Text)
    requires OneLine(s) && |s| < BUFFER_SIZE - 1
    ensures Split([], s + [NEWLINE]) == ([], [Full(s)])
  {
    SplitPlain(s);
    var t, none: seq<Piece> := s + [NEWLINE], [];
    assert t[..|t| - 1] == s && t[|t| - 1] == NEWLINE && none + [Full(s)] == [Full(s)];
  }

  /** Reading in chunks makes no difference. */
  lemma {:induction false} SplitChunks(rest: Text, a: Text, b: Text)
    ensures var (r, ps) := Split(rest, a);
            var (r', qs) := Split(r, b);
            Split(rest, a + b) == (r', ps + qs)
  {
    if b == [] {
      assert a + b == a && Split(rest, a).1 + [] == Split(rest, a).1;
    } else {
      SplitChunks(rest, a, b[..|b| - 1]);
      assert (a + b)[..|a + b| - 1] == a + b[..|b| - 1];
      var (r, ps) := Split(rest, a);
      var (r1, qs) := Split(r, b[..|b| - 1]);
      var (r2, more) := SplitByte(r1, b[|b| - 1]);
      assert ps + qs + more == ps + (qs + more);
    }
  }

  // ------------------------------------------------------------------ the repeat compressor

  /** The last line that was logged and how often it has been seen in a row. */
  datatype Compressor = Compressor(last: Text, count: nat)

  /** loader_check_line_repeat_end */
  function RepeatEnd(count: nat): seq<Entry> {
    if count >= 2 then [Repeated(count)] else []
  }

  function CompressPiece(c: Compressor, p: Piece): (Compressor, seq<Entry>) {
    match p
    case Cut(text) => (c, [Truncated(text)])
    case Full(text) =>
      if c.count > 0 && c.last == text then
        (c.(count := c.count + 1), if c.count == 1 then [Repeating] else [])
      else
        (Compressor(text, 1), RepeatEnd(c.count) + [Line(text)])
  }

  function Compress(c: Compressor, ps: seq<Piece>): (Compressor, seq<Entry>) {
    if ps == [] then (c, [])
    else
      var (d, log) := Compress(c, ps[..|ps| - 1]);
      var (e, more) := CompressPiece(d, ps[|ps| - 1]);
      (e, log + more)
  }

  lemma {:induction false} CompressAppend(c: Compressor, a: seq<Piece>, b: seq<Piece>)
    ensures var (d, log) := Compress(c, a);
            var (e, more) := Compress(d, b);
            Compress(c, a + b) == (e, log + more)
  {
    if b == [] {
      assert a + b == a && Compress(c, a).1 + [] == Compress(c, a).1;
    } else {
      CompressAppend(c, a, b[..|b| - 1]);
      assert (a + b)[..|a + b| - 1] == a + b[..|b| - 1];
      var (d, log) := Compress(c, a);
      var (e, more) := Compress(d, b[..|b| - 1]);
      var (f, last) := CompressPiece(e, b[|b| - 1]);
      assert log + more + last == log + (more + last);
    }
  }

  /** The whole log of a child, including the flush when it is buried. */
  function ChildLog(ps: seq<Piece>): seq<Entry> {
    var (c, log) := Compress(Compressor([], 0), ps);
    log + RepeatEnd(c.count)
  }

  function Copies(text: Text, n: nat): seq<Text> {
    if n == 0 then [] else Copies(text, n - 1) + [text]
  }

  /** Reads a log back: a line stands for itself, "repeated n times" for n - 1 more of it. */
  function ExpandEntry(lines: seq<Text>, e: Entry): seq<Text> {
    match e
    case Line(text) => lines + [text]
    case Repeating => lines
    case Repeated(n) => if lines == [] || n == 0 then lines else lines + Copies(lines[|lines| - 1], n - 1)
    case Truncated(_) => lines
  }

  function Expand(log: seq<Entry>): seq<Text> {
    if log == [] then [] else ExpandEntry(Expand(log[..|log| - 1]), log[|log| - 1])
  }

  /** The complete lines among the pieces, in order. */
  function Lines(ps: seq<Piece>): seq<Text> {
    if ps == [] then []
    else
      var p := ps[|ps| - 1];
      Lines(ps[..|ps| - 1]) + if p.Full? then [p.text] else []
  }

  /** The pieces that were cut, in order. */
  function Cuts(ps: seq<Piece>): seq<Text> {
    if ps == [] then []
    else
      var p := ps[|ps| - 1];
      Cuts(ps[..|ps| - 1]) + if p.Cut? then [p.text] else []
  }

  function CutsOf(log: seq<Entry>): seq<Text> {
    if log == [] then []
    else
      var e := log[|log| - 1];
      CutsOf(log[..|log| - 1]) + if e.Truncated? then [e.text] else []
  }

  lemma ExpandOne(log: seq<Entry>, e: Entry)
    ensures Expand(log + [e]) == ExpandEntry(Expand(log), e)
  {
    assert (log + [e])[..|log|] == log;
  }

  lemma CutsOne(log: seq<Entry>, e: Entry)
    ensures CutsOf(log + [e]) == CutsOf(log) + if e.Truncated? then [e.text] else []
  {
    assert (log + [e])[..|log|] == log;
  }

  /** The log lacks exactly the repetitions counted so far. */
  predicate Lacks(c: Compressor, log: seq<Entry>, texts: seq<Text>) {
    if c.count == 0 then log == [] && texts == []
    else
      && Expand(log) != [] && Expand(log)[|Expand(log)| - 1] == c.last
      && texts == Expand(log) + Copies(c.last, c.count - 1)
  }

  /** Flushing the count makes up for the lack. */
  lemma FlushComplete(c: Compressor, log: seq<Entry>, texts: seq<Text>)
    requires Lacks(c, log, texts)
    ensures Expand(log + RepeatEnd(c.count)) == texts
  {
    if c.count >= 2 {
      ExpandOne(log, Repeated(c.count));
    } else {
      assert log + RepeatEnd(c.count) == log;
    }
  }

  lemma CompressLine(c: Compressor, log: seq<Entry>, texts: seq<Text>, line: Text)
    requires Lacks(c, log, texts)
    ensures var (d, more) := CompressPiece(c, Full(line));
            Lacks(d, log + more, texts + [line])
  {
    if c.count > 0 && c.last == line {
      if c.count == 1 { ExpandOne(log, Repeating); } else { assert log + [] == log; }
    } else {
      FlushComplete(c, log, texts);
      ExpandOne(log + RepeatEnd(c.count), Line(line));
      assert log + (RepeatEnd(c.count) + [Line(line)]) == log + RepeatEnd(c.count) + [Line(line)];
      var none: seq<Text> := [];
      assert texts + [line] + none == texts + [line];
    }
  }

  lemma CompressCut(c: Compressor, log: seq<Entry>, texts: seq<Text>, cut: Text)
    requires Lacks(c, log, texts) && c.count > 0
    ensures Lacks(c, log + [Truncated(cut)], texts)
  {
    ExpandOne(log, Truncated(cut));
  }

  lemma {:induction false} CompressInvariant(ps: seq<Piece>)
    ensures var (c, log) := Compress(Compressor([], 0), ps);
            if c.count == 0 then Expand(log) == [] && Lines(ps) == [] else Lacks(c, log, Lines(ps))
  {
    if ps != [] {
      var init, p := ps[..|ps| - 1], ps[|ps| - 1];
      CompressInvariant(init);
      var (d, log) := Compress(Compressor([], 0), init);
      if p.Cut? {
        if d.count > 0 { CompressCut(d, log, Lines(init), p.text); } else { ExpandOne(log, Truncated(p.text)); }
        assert Lines(init) + [] == Lines(init);
      } else if d.count > 0 {
        hide Lacks;
        CompressLine(d, log, Lines(init), p.text);
      } else {
        ExpandOne(log, Line(p.text));
      }
    }
  }

  lemma {:induction false} CutsAreLogged(c: Compressor, ps: seq<Piece>)
    ensures CutsOf(Compress(c, ps).1) == Cuts(ps)
  {
    if ps != [] {
      var init, p := ps[..|ps| - 1], ps[|ps| - 1];
      CutsAreLogged(c, init);
      var (d, log) := Compress(c, init);
      match p
      case Cut(text) => CutsOne(log, Truncated(text));
      case Full(text) =>
        if d.count > 0 && d.last == text {
          if d.count == 1 { CutsOne(log, Repeating); } else { assert log + [] == log; }
        } else {
          if d.count >= 2 { CutsOne(log, Repeated(d.count)); } else { assert log + RepeatEnd(d.count) == log; }
          CutsOne(log + RepeatEnd(d.count), Line(text));
          assert log + (RepeatEnd(d.count) + [Line(text)]) == log + RepeatEnd(d.count) + [Line(text)];
        }
    }
  }

  /** Compression loses no line and no cut piece, whatever the child printed: both can be read
    back from the entries of the log, each in its order. Without cut pieces that is the whole output. */
  lemma CompressionIsLossless(ps: seq<Piece>)
    ensures Expand(ChildLog(ps)) == Lines(ps)
    ensures CutsOf(ChildLog(ps)) == Cuts(ps)
  {
    var (c, log) := Compress(Compressor([], 0), ps);
    CompressInvariant(ps);
    if c.count > 0 { FlushComplete(c, log, Lines(ps)); } else { assert log + RepeatEnd(0) == log; }
    CutsAreLogged(Compressor([], 0), ps);
    if c.count >= 2 { CutsOne(log, Repeated(c.count)); } else { assert log + RepeatEnd(c.count) == log; }
  }

  lemma Compress1(c: Compressor, p: Piece)
    ensures Compress(c, [p]) == CompressPiece(c, p)
  {
    assert [p][..0] == [];
    var (d, log) := CompressPiece(c, p);
    assert [] + log == log;
  }

  // ------------------------------------------------------------------ when the log tells everything

  predicate EndsInTwo(lines: seq<Text>, x: Text) {
    |lines| >= 2 && lines[|lines| - 1] == x && lines[|lines| - 2] == x
  }

  /** At `j`, after at least two equal lines, a cut piece stands next to one more such line. */
  predicate BlurredAt(ps: seq<Piece>, j: nat, x: Text) {
    && j + 1 < |ps| && EndsInTwo(Lines(ps[..j]), x)
    && ((ps[j].Cut? && ps[j + 1] == Full(x)) || (ps[j] == Full(x) && ps[j + 1].Cut?))
  }

  /** A run of three or more equal lines has a cut piece after its second line. */
  ghost predicate Blurred(ps: seq<Piece>) {
    exists j: nat, x: Text :: BlurredAt(ps, j, x)
  }

  lemma {:induction false} BlurredPrefix(ps: seq<Piece>, qs: seq<Piece>)
    requires Blurred(ps)
    ensures Blurred(ps + qs)
  {
    var j: nat, x: Text :| BlurredAt(ps, j, x);
    assert (ps + qs)[..j] == ps[..j];
    assert BlurredAt(ps + qs, j, x);
  }

  function Repeats(text: Text, n: nat): seq<Piece> {
    if n == 0 then [] else Repeats(text, n - 1) + [Full(text)]
  }

  /** Reads pieces back from a log, as if in every run of equal lines the cut pieces after the
    second line came before all further ones. */
  function ReplayEntry(ps: seq<Piece>, e: Entry): seq<Piece> {
    match e
    case Line(text) => ps + [Full(text)]
    case Truncated(text) => ps + [Cut(text)]
    case Repeating => if Lines(ps) == [] then ps else ps + [Full(Lines(ps)[|Lines(ps)| - 1])]
    case Repeated(n) => if Lines(ps) == [] || n < 2 then ps else ps + Repeats(Lines(ps)[|Lines(ps)| - 1], n - 2)
  }

  function Replay(log: seq<Entry>): seq<Piece> {
    if log == [] then [] else ReplayEntry(Replay(log[..|log| - 1]), log[|log| - 1])
  }

  lemma ReplayOne(log: seq<Entry>, e: Entry)
    ensures Replay(log + [e]) == ReplayEntry(Replay(log), e)
  {
    assert (log + [e])[..|log|] == log;
  }

  lemma LinesOne(ps: seq<Piece>, p: Piece)
    ensures Lines(ps + [p]) == Lines(ps) + if p.Full? then [p.text] else []
  {
    assert (ps + [p])[..|ps|] == ps;
  }

  /** Lines that the log does not show yet. */
  function Hidden(c: Compressor): nat {
    if c.count >= 2 then c.count - 2 else 0
  }

  /** `r` is what the log shows so far of the pieces `ps`, the hidden lines added: the same pieces, or
    both are blurred. */
  ghost predicate Shows(c: Compressor, log: seq<Entry>, ps: seq<Piece>) {
    var shown := Replay(log);
    && (c.count >= 1 ==> Lines(shown) != [] && Lines(shown)[|Lines(shown)| - 1] == c.last)
    && (c.count >= 2 ==> EndsInTwo(Lines(shown), c.last))
    && SameOrBlurred(shown + Repeats(c.last, Hidden(c)), ps)
  }

  ghost predicate SameOrBlurred(r: seq<Piece>, ps: seq<Piece>) {
    r == ps || (Blurred(r) && Blurred(ps))
  }

  lemma BothBlurred(r: seq<Piece>, ps: seq<Piece>)
    requires Blurred(r) && Blurred(ps)
    ensures SameOrBlurred(r, ps)
  {
  }

  lemma SameOrBlurredMore(r: seq<Piece>, ps: seq<Piece>, p: Piece)
    requires SameOrBlurred(r, ps)
    ensures SameOrBlurred(r + [p], ps + [p])
  {
    if Blurred(r) && Blurred(ps) {
      BlurredPrefix(r, [p]);
      BlurredPrefix(ps, [p]);
    }
  }

  /** The flush shows the hidden lines. */
  lemma FlushShows(c: Compressor, log: seq<Entry>, ps: seq<Piece>)
    requires Shows(c, log, ps)
    ensures Replay(log + RepeatEnd(c.count)) == Replay(log) + Repeats(c.last, Hidden(c))
  {
    if c.count >= 2 {
      ReplayOne(log, Repeated(c.count));
    } else {
      assert log + RepeatEnd(c.count) == log && Replay(log) + [] == Replay(log);
    }
  }

  lemma SecondShows(c: Compressor, log: seq<Entry>, ps: seq<Piece>)
    requires Shows(c, log, ps) && c.count == 1
    ensures Shows(c.(count := 2), log + [Repeating], ps + [Full(c.last)])
  {
    hide Replay, Lines, SameOrBlurred;
    var shown, x := Replay(log), c.last;
    assert shown + [] == shown;
    SameOrBlurredMore(shown, ps, Full(x));
    ReplayOne(log, Repeating);
    LinesOne(shown, Full(x));
    assert shown + [Full(x)] + [] == shown + [Full(x)];
  }

  lemma HiddenShows(c: Compressor, log: seq<Entry>, ps: seq<Piece>)
    requires Shows(c, log, ps) && c.count >= 2
    ensures Shows(c.(count := c.count + 1), log, ps + [Full(c.last)])
  {
    hide Replay, Lines, SameOrBlurred;
    var shown, x, n := Replay(log), c.last, Hidden(c);
    SameOrBlurredMore(shown + Repeats(x, n), ps, Full(x));
    assert shown + Repeats(x, n) + [Full(x)] == shown + Repeats(x, n + 1);
  }

  lemma RepeatShows(c: Compressor, log: seq<Entry>, ps: seq<Piece>)
    requires Shows(c, log, ps) && c.count >= 1
    ensures var (d, more) := CompressPiece(c, Full(c.last)); Shows(d, log + more, ps + [Full(c.last)])
  {
    hide Shows;
    if c.count == 1 { SecondShows(c, log, ps); } else { HiddenShows(c, log, ps); assert log + [] == log; }
  }

  lemma LineShows(flushed: seq<Entry>, ps: seq<Piece>, y: Text)
    requires SameOrBlurred(Replay(flushed), ps)
    ensures Shows(Compressor(y, 1), flushed + [Line(y)], ps + [Full(y)])
  {
    ReplayOne(flushed, Line(y));
    LinesOne(Replay(flushed), Full(y));
    SameOrBlurredMore(Replay(flushed), ps, Full(y));
    hide Replay, Lines, SameOrBlurred, EndsInTwo;
    assert Replay(flushed) + [Full(y)] + [] == Replay(flushed) + [Full(y)];
  }

  lemma NewLineShows(c: Compressor, log: seq<Entry>, ps: seq<Piece>, y: Text)
    requires Shows(c, log, ps) && (c.count == 0 || c.last != y)
    ensures var (d, more) := CompressPiece(c, Full(y)); Shows(d, log + more, ps + [Full(y)])
  {
    var flushed := log + RepeatEnd(c.count);
    FlushShows(c, log, ps);
    LineShows(flushed, ps, y);
    hide Shows, SameOrBlurred, RepeatEnd;
    assert log + (RepeatEnd(c.count) + [Line(y)]) == flushed + [Line(y)];
  }

  /** A cut piece among hidden lines: both readings are blurred from now on. */
  lemma HiddenCut(shown: seq<Piece>, ps: seq<Piece>, x: Text, n: nat, cut: Text)
    requires n > 0 && EndsInTwo(Lines(shown), x) && SameOrBlurred(shown + Repeats(x, n), ps)
    ensures Blurred(shown + [Cut(cut)] + Repeats(x, n)) && Blurred(ps + [Cut(cut)])
  {
    var r, k := shown + [Cut(cut)] + Repeats(x, n), |shown|;
    RepeatsAt(x, n);
    assert r[..k] == shown && r[k] == Cut(cut) && r[k + 1] == Repeats(x, n)[0] == Full(x);
    assert BlurredAt(r, k, x);
    if ps == shown + Repeats(x, n) {
      var q, j := ps + [Cut(cut)], |ps| - 1;
      assert q[..j] == shown + Repeats(x, n - 1) && q[j] == Full(x) && q[j + 1] == Cut(cut);
      MoreRepeats(shown, x, n - 1);
      assert BlurredAt(q, j, x);
    } else {
      BlurredPrefix(ps, [Cut(cut)]);
    }
  }

  lemma {:induction false} RepeatsAt(x: Text, n: nat)
    ensures |Repeats(x, n)| == n && forall i :: 0 <= i < n ==> Repeats(x, n)[i] == Full(x)
  {
    if n > 0 { RepeatsAt(x, n - 1); }
  }

  lemma {:induction false} MoreRepeats(shown: seq<Piece>, x: Text, n: nat)
    requires EndsInTwo(Lines(shown), x)
    ensures EndsInTwo(Lines(shown + Repeats(x, n)), x)
  {
    if n == 0 {
      assert shown + [] == shown;
    } else {
      MoreRepeats(shown, x, n - 1);
      LinesOne(shown + Repeats(x, n - 1), Full(x));
      assert shown + Repeats(x, n - 1) + [Full(x)] == shown + Repeats(x, n);
    }
  }

  lemma CutShows(c: Compressor, log: seq<Entry>, ps: seq<Piece>, cut: Text)
    requires Shows(c, log, ps)
    ensures Shows(c, log + [Truncated(cut)], ps + [Cut(cut)])
  {
    hide Replay, Lines, SameOrBlurred;
    var shown := Replay(log);
    ReplayOne(log, Truncated(cut));
    LinesOne(shown, Cut(cut));
    assert Lines(shown) + [] == Lines(shown);
    if Hidden(c) == 0 {
      SameOrBlurredMore(shown + [], ps, Cut(cut));
      assert shown + [] + [Cut(cut)] == shown + [Cut(cut)] + [];
    } else {
      HiddenCut(shown, ps, c.last, Hidden(c), cut);
      BothBlurred(shown + [Cut(cut)] + Repeats(c.last, Hidden(c)), ps + [Cut(cut)]);
    }
  }

  lemma {:induction false} CompressShows(ps: seq<Piece>)
    ensures var (c, log) := Compress(Compressor([], 0), ps); Shows(c, log, ps)
  {
    if ps == [] {
      assert Replay([]) + [] == [];
    } else {
      var init, p := ps[..|ps| - 1], ps[|ps| - 1];
      CompressShows(init);
      var (c, log) := Compress(Compressor([], 0), init);
      assert ps == init + [p];
      hide Shows;
      match p
      case Cut(text) => CutShows(c, log, init, text);
      case Full(text) =>
        if c.count > 0 && c.last == text {
          RepeatShows(c, log, init);
        } else {
          NewLineShows(c, log, init, text);
        }
    }
  }

  /** What a log shows is the pieces themselves, or both are blurred. */
  lemma ReplayChildLog(ps: seq<Piece>)
    ensures SameOrBlurred(Replay(ChildLog(ps)), ps)
  {
    var (c, log) := Compress(Compressor([], 0), ps);
    CompressShows(ps);
    FlushShows(c, log, ps);
  }

  /** A cut piece and a line that repeats the two before it can change places: the log is the same. */
  lemma BlurredSwap(ps: seq<Piece>) returns (qs: seq<Piece>)
    requires Blurred(ps)
    ensures qs != ps && ChildLog(qs) == ChildLog(ps) && forall q <- qs :: q in ps
  {
    var j: nat, x: Text :| BlurredAt(ps, j, x);
    var a, b := ps[..j], ps[j + 2..];
    qs := a + [ps[j + 1], ps[j]] + b;
    assert ps == a + [ps[j], ps[j + 1]] + b;
    assert qs[j] == ps[j + 1] != ps[j];
    CompressInvariant(a);
    var c := Compress(Compressor([], 0), a).0;
    CountAtLeastTwo(a, x);
    SwapPieces(c, ps[j], ps[j + 1]);
    CompressAppend(Compressor([], 0), a, [ps[j], ps[j + 1]]);
    CompressAppend(Compressor([], 0), a, [ps[j + 1], ps[j]]);
    CompressAppend(Compressor([], 0), a + [ps[j], ps[j + 1]], b);
    CompressAppend(Compressor([], 0), a + [ps[j + 1], ps[j]], b);
  }

  lemma CompressTwo(c: Compressor, p: Piece, q: Piece)
    ensures var (d, log) := CompressPiece(c, p);
            var (e, more) := CompressPiece(d, q);
            Compress(c, [p, q]) == (e, log + more)
  {
    Compress1(c, p);
    Compress1(CompressPiece(c, p).0, q);
    CompressAppend(c, [p], [q]);
    assert [p] + [q] == [p, q];
  }

  lemma SwapPieces(c: Compressor, p: Piece, q: Piece)
    requires c.count >= 2
    requires (p.Cut? && q == Full(c.last)) || (p == Full(c.last) && q.Cut?)
    ensures Compress(c, [p, q]) == Compress(c, [q, p])
  {
    CompressTwo(c, p, q);
    CompressTwo(c, q, p);
    hide Compress;
    var cut := if p.Cut? then p.text else q.text;
    var none: seq<Entry> := [];
    assert none + [Truncated(cut)] == [Truncated(cut)] + none;
  }

  /** For example: a cut piece before and after the third of three equal lines. */
  lemma TruncationLosesOrder(x: Text, cut: Text)
    ensures var a, b := [Full(x), Full(x), Full(x), Cut(cut)], [Full(x), Full(x), Cut(cut), Full(x)];
            a != b && ChildLog(a) == ChildLog(b)
  {
    var start, line: Piece, piece: Piece := Compressor([], 0), Full(x), Cut(cut);
    CompressTwo(start, line, line);
    SwapPieces(Compressor(x, 2), line, piece);
    CompressAppend(start, [line, line], [line, piece]);
    CompressAppend(start, [line, line], [piece, line]);
    assert [line, line] + [line, piece] == [line, line, line, piece];
    assert [line, line] + [piece, line] == [line, line, piece, line];
    assert [line, line, line, piece][2] != [line, line, piece, line][2];
  }

  predicate Counts(c: Compressor, lines: seq<Text>, x: Text) {
    var n := |lines|;
    && (n > 0 <==> c.count > 0) && (n > 0 ==> c.last == lines[n - 1])
    && (EndsInTwo(lines, x) ==> c.count >= 2 && c.last == x)
  }

  /** After two equal lines the compressor counts at least two. */
  lemma {:induction false} CountAtLeastTwo(ps: seq<Piece>, x: Text)
    ensures Counts(Compress(Compressor([], 0), ps).0, Lines(ps), x)
  {
    if ps != [] {
      var init, p := ps[..|ps| - 1], ps[|ps| - 1];
      CountAtLeastTwo(init, x);
      CountsOneMore(init, p, x);
      assert ps == init + [p];
    }
  }

  lemma CountsOneMore(ps: seq<Piece>, p: Piece, x: Text)
    requires Counts(Compress(Compressor([], 0), ps).0, Lines(ps), x)
    ensures Counts(Compress(Compressor([], 0), ps + [p]).0, Lines(ps + [p]), x)
  {
    hide Compress, Lines;
    var c := Compress(Compressor([], 0), ps).0;
    Compress1(c, p);
    CompressAppend(Compressor([], 0), ps, [p]);
    LinesOne(ps, p);
  }

  /** The entries a child leaves in the log determine its output exactly if no run of three or more equal lines has a
    cut piece after its second line. */
  lemma LogDeterminesOutputExactlyWhen(ps: seq<Piece>)
    ensures (forall qs :: ChildLog(qs) == ChildLog(ps) ==> qs == ps) <==> !Blurred(ps)
  {
    if Blurred(ps) {
      var qs := BlurredSwap(ps);
    } else {
      forall qs | ChildLog(qs) == ChildLog(ps)
        ensures qs == ps
      {
        ReplayChildLog(ps);
        ReplayChildLog(qs);
      }
    }
  }

  /** All lines among the pieces from `a` up to `b` are `x`. */
  predicate OneText(ps: seq<Piece>, a: nat, b: nat, x: Text) {
    b <= |ps| && forall m :: a <= m < b && ps[m].Full? ==> ps[m].text == x
  }

  /** Three equal lines follow each other at `a`, `b` and `c`, with a cut piece at `j` behind the second
    one, and no other line from the first of them up to the last of them and the cut piece. */
  predicate CutInRun(ps: seq<Piece>, a: nat, b: nat, c: nat, j: nat, x: Text) {
    && a < b < c < |ps| && b < j < |ps| && ps[j].Cut?
    && ps[a] == ps[b] == ps[c] == Full(x)
    && OneText(ps, a, if c < j then j else c, x)
  }

  lemma {:induction false} LastTwoLines(ps: seq<Piece>, a: nat, b: nat, k: nat, x: Text)
    requires a < b < k <= |ps| && ps[a] == ps[b] == Full(x) && OneText(ps, a, k, x)
    ensures EndsInTwo(Lines(ps[..k]), x)
    decreases k
  {
    var p := ps[k - 1];
    assert ps[..k] == ps[..k - 1] + [p];
    LinesOne(ps[..k - 1], p);
    if k - 1 == b {
      LastLine(ps, a, b, x);
    } else {
      LastTwoLines(ps, a, b, k - 1, x);
    }
  }

  lemma {:induction false} LastLine(ps: seq<Piece>, a: nat, k: nat, x: Text)
    requires a < k <= |ps| && ps[a] == Full(x) && OneText(ps, a, k, x)
    ensures Lines(ps[..k]) != [] && Lines(ps[..k])[|Lines(ps[..k])| - 1] == x
    decreases k
  {
    assert ps[..k] == ps[..k - 1] + [ps[k - 1]];
    LinesOne(ps[..k - 1], ps[k - 1]);
    if k - 1 > a { LastLine(ps, a, k - 1, x); }
  }

  lemma {:induction false} FindLast(ps: seq<Piece>, k: nat, x: Text) returns (a: nat)
    requires k <= |ps| && Lines(ps[..k]) != [] && Lines(ps[..k])[|Lines(ps[..k])| - 1] == x
    ensures a < k && ps[a] == Full(x) && OneText(ps, a, k, x)
    ensures Lines(ps[..k]) == Lines(ps[..a]) + [x]
    decreases k
  {
    var p := ps[k - 1];
    assert ps[..k] == ps[..k - 1] + [p];
    LinesOne(ps[..k - 1], p);
    if p.Full? {
      a := k - 1;
    } else {
      assert Lines(ps[..k - 1]) + [] == Lines(ps[..k - 1]);
      a := FindLast(ps, k - 1, x);
    }
  }

  /** Between a cut piece and a line, in either order, two of them meet. */
  lemma {:induction false} Meet(ps: seq<Piece>, lo: nat, hi: nat, x: Text) returns (k: nat)
    requires lo < hi < |ps| && OneText(ps, lo, hi, x) && OneText(ps, lo, hi + 1, x)
    requires (ps[lo].Cut? && ps[hi].Full?) || (ps[lo].Full? && ps[hi].Cut?)
    ensures lo <= k < hi
    ensures (ps[k].Cut? && ps[k + 1] == Full(x)) || (ps[k] == Full(x) && ps[k + 1].Cut?)
    decreases hi - lo
  {
    if ps[lo].Cut? == ps[lo + 1].Cut? {
      k := Meet(ps, lo + 1, hi, x);
    } else {
      k := lo;
    }
  }

  /** Blurred says that some run of three or more equal lines has a cut piece after its second line and
    before the next other line. */
  lemma BlurredMeans(ps: seq<Piece>)
    ensures Blurred(ps) <==> exists a: nat, b: nat, c: nat, j: nat, x: Text :: CutInRun(ps, a, b, c, j, x)
  {
    if Blurred(ps) {
      var k: nat, x: Text :| BlurredAt(ps, k, x);
      var b := FindLast(ps, k, x);
      var a := FindLast(ps, b, x);
      if ps[k].Cut? {
        assert CutInRun(ps, a, b, k + 1, k, x);
      } else {
        assert CutInRun(ps, a, b, k, k + 1, x);
      }
    }
    if a: nat, b: nat, c: nat, j: nat, x: Text :| CutInRun(ps, a, b, c, j, x) {
      var k;
      if c < j { k := Meet(ps, c, j, x); } else { k := Meet(ps, j, c, x); }
      LastTwoLines(ps, a, b, k, x);
      assert BlurredAt(ps, k, x);
    }
  }
}

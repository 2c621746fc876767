/** The log as it is printed: lines of the child and markers of the loader are text alike, so a child
  can print what the loader would. When the printed log still tells what the child wrote. */
module PrintedLog {
  import opened Bytes
  import opened ChildOutput

  datatype Channel = Stdout | Stderr

  function Ascii(s: string): Text {
    seq(|s|, i requires 0 <= i < |s| => if s[i] as int < 256 then s[i] as int else 0)
  }

  /** What is printed when a line comes for the second time. */
  function RepeatingText(ch: Channel): Text {
    match ch
    case Stdout => Ascii("last stdout line repeating...")
    case Stderr => Ascii("last stderr line repeating..")
  }

  /** What is printed when the repetition has ended. */
  function CountText(ch: Channel, n: nat): Text {
    CountHead(ch) + Decimal(n) + CountTail()
  }

  function CountHead(ch: Channel): Text {
    Ascii(if ch.Stdout? then "stdout line repeated " else "stderr line repeated ")
  }

  function CountTail(): Text {
    Ascii(" times")
  }

  /** The mark behind a piece that filled the buffer, in the colours of a terminal. */
  function TruncatedMark(): Text {
    Ascii(" \U{1B}[0m\U{1B}[31m(truncated) \U{1B}[0m")
  }

  /** The text of an entry, behind time stamp, project and program. */
  function Body(ch: Channel, e: Entry): Text {
    match e
    case Line(text) => text
    case Repeating => RepeatingText(ch)
    case Repeated(n) => CountText(ch, n)
    case Truncated(text) => text + TruncatedMark()
  }

  /** The log file, each entry on a line of its own; `heads` are the texts in front, the time stamps
    among them. */
  function Print(ch: Channel, heads: nat -> Text, k: nat, log: seq<Entry>): Text
    decreases |log|
  {
    if log == [] then [] else heads(k) + Body(ch, log[0]) + [NEWLINE] + Print(ch, heads, k + 1, log[1..])
  }

  // ------------------------------------------------------------------ what a child can print

  predicate PieceOk(p: Piece) {
    PieceSize(p) && OneLine(p.text)
  }

  predicate Output(ps: seq<Piece>) {
    forall i :: 0 <= i < |ps| ==> PieceOk(ps[i])
  }

  predicate EntryOk(e: Entry) {
    && (e.Line? ==> PieceOk(Full(e.text)))
    && (e.Truncated? ==> PieceOk(Cut(e.text)))
  }

  predicate EntriesOk(log: seq<Entry>) {
    forall i :: 0 <= i < |log| ==> EntryOk(log[i])
  }

  lemma SplitPiece(p: Piece)
    requires PieceOk(p)
    ensures Split([], p.Bytes()) == ([], [p])
  {
    if p.Full? { SplitLine(p.text); } else { SplitPlain(p.text); }
  }

  lemma {:induction false} OutputIsSplit(ps: seq<Piece>)
    requires Output(ps)
    ensures Split([], Concat(ps)) == ([], ps)
  {
    if ps != [] {
      var init, p := ps[..|ps| - 1], ps[|ps| - 1];
      assert init + [p] == ps;
      OutputIsSplit(init);
      SplitOneMore(init, p);
    }
  }

  lemma SplitOneMore(ps: seq<Piece>, p: Piece)
    requires PieceOk(p) && Split([], Concat(ps)) == ([], ps)
    ensures Split([], Concat(ps + [p])) == ([], ps + [p])
  {
    hide *;
    SplitPiece(p);
    ConcatOneMore(ps, p);
    SplitChunks([], Concat(ps), p.Bytes());
  }

  /** The pieces that come of some stream of bytes are those that fit the buffer. */
  lemma OutputsAre(ps: seq<Piece>)
    ensures Output(ps) <==> exists s :: Split([], s).1 == ps
  {
    if Output(ps) { OutputIsSplit(ps); }
    if s :| Split([], s).1 == ps {
      SplitSizes([], s);
      NoNewlineInside([], s);
      assert forall i :: 0 <= i < |ps| ==> ps[i] in ps;
    }
  }

  // ------------------------------------------------------------------ which logs there are

  /** What a log has come to: the last line, logged once, under repetition, or counted. */
  datatype Reading = Start | Single(line: Text) | Again(line: Text) | Done(line: Text) | Stuck

  function Read(r: Reading, e: Entry): Reading {
    match e
    case Line(text) =>
      if r.Start? then Single(text)
      else if (r.Single? || r.Done?) && r.line != text then Single(text)
      else Stuck
    case Repeating => if r.Single? then Again(r.line) else Stuck
    case Repeated(n) => if r.Again? && n >= 2 then Done(r.line) else Stuck
    case Truncated(_) => if r.Done? then Stuck else r
  }

  function Reads(r: Reading, log: seq<Entry>): Reading
    decreases |log|
  {
    if log == [] then r else Reads(Read(r, log[0]), log[1..])
  }

  /** A repetition that has begun has been counted. */
  predicate Ended(r: Reading) {
    !r.Again? && !r.Stuck?
  }

  predicate IsLog(log: seq<Entry>) {
    Ended(Reads(Start, log)) && EntriesOk(log)
  }

  lemma {:induction false} ReadsAppend(r: Reading, a: seq<Entry>, b: seq<Entry>)
    ensures Reads(r, a + b) == Reads(Reads(r, a), b)
    decreases |a|
  {
    if a == [] {
      assert a + b == b;
    } else {
      assert (a + b)[1..] == a[1..] + b;
      ReadsAppend(Read(r, a[0]), a[1..], b);
    }
  }

  lemma ReadsOne(r: Reading, e: Entry)
    ensures Reads(r, [e]) == Read(r, e)
  {
    assert [e][1..] == [];
  }

  lemma {:induction false} StaysStuck(log: seq<Entry>)
    ensures Reads(Stuck, log) == Stuck
    decreases |log|
  {
    if log != [] { StaysStuck(log[1..]); }
  }

  function StateOf(c: Compressor): Reading {
    if c.count == 0 then Start else if c.count == 1 then Single(c.last) else Again(c.last)
  }

  lemma PieceReads(c: Compressor, p: Piece)
    requires PieceOk(p)
    ensures var (d, more) := CompressPiece(c, p);
            Reads(StateOf(c), more) == StateOf(d) && EntriesOk(more)
  {
    hide PieceSize, OneLine;
    match p
    case Cut(text) => ReadsOne(StateOf(c), Truncated(text));
    case Full(text) =>
      ReadsOne(StateOf(c), Repeating);
      ReadsOne(StateOf(c), Line(text));
      if c.count >= 2 && c.last != text {
        ReadsOne(StateOf(c), Repeated(c.count));
        ReadsOne(Done(c.last), Line(text));
        ReadsAppend(StateOf(c), [Repeated(c.count)], [Line(text)]);
      } else {
        assert RepeatEnd(1) + [Line(text)] == [Line(text)] == RepeatEnd(0) + [Line(text)];
      }
  }

  lemma {:induction false} CompressReads(ps: seq<Piece>)
    requires Output(ps)
    ensures var (c, log) := Compress(Compressor([], 0), ps);
            Reads(Start, log) == StateOf(c) && EntriesOk(log)
  {
    if ps != [] {
      var init, p := ps[..|ps| - 1], ps[|ps| - 1];
      CompressReads(init);
      hide PieceOk, CompressPiece;
      var (c, log) := Compress(Compressor([], 0), init);
      PieceReads(c, p);
      ReadsAppend(Start, log, CompressPiece(c, p).1);
    }
  }

  lemma LogsAreRead(ps: seq<Piece>)
    requires Output(ps)
    ensures IsLog(ChildLog(ps))
  {
    var (c, log) := Compress(Compressor([], 0), ps);
    CompressReads(ps);
    hide PieceOk, Compress;
    if c.count >= 2 { ReadsOne(StateOf(c), Repeated(c.count)); }
    ReadsAppend(Start, log, RepeatEnd(c.count));
  }

  lemma {:induction false} CompressRepeats(c: Compressor, n: nat)
    requires c.count >= 2
    ensures Compress(c, Repeats(c.last, n)) == (c.(count := c.count + n), [])
  {
    if n > 0 {
      CompressRepeats(c, n - 1);
      Compress1(c.(count := c.count + n - 1), Full(c.last));
      CompressAppend(c, Repeats(c.last, n - 1), [Full(c.last)]);
    }
  }

  /** Where the compressor stands after the pieces that a log shows: a count at the end of the log is
    still to come. */
  predicate Matches(r: Reading, log: seq<Entry>, c: Compressor, shown: seq<Entry>) {
    match r
    case Start => c.count == 0 && shown == log
    case Single(w) => c == Compressor(w, 1) && shown == log
    case Again(w) => c == Compressor(w, 2) && shown == log
    case Done(w) => c.last == w && c.count >= 2 && log == shown + [Repeated(c.count)]
    case Stuck => true
  }

  lemma ReplayMore(log: seq<Entry>, e: Entry, ps: seq<Piece>)
    requires ps == Replay(log)
    requires var (c, shown) := Compress(Compressor([], 0), ps); Matches(Reads(Start, log), log, c, shown)
    requires !Read(Reads(Start, log), e).Stuck?
    ensures var (d, more) := Compress(Compressor([], 0), Replay(log + [e]));
            Matches(Read(Reads(Start, log), e), log + [e], d, more)
  {
    hide Compress, Lines;
    var r, start := Reads(Start, log), Compressor([], 0);
    var (c, shown) := Compress(start, ps);
    ReplayOne(log, e);
    LastOfCompressed(ps);
    match e
    case Line(text) =>
      Compress1(c, Full(text));
      CompressAppend(start, ps, [Full(text)]);
      assert shown + (RepeatEnd(c.count) + [Line(text)]) == log + [Line(text)];
    case Truncated(text) =>
      Compress1(c, Cut(text));
      CompressAppend(start, ps, [Cut(text)]);
    case Repeating =>
      Compress1(c, Full(c.last));
      CompressAppend(start, ps, [Full(c.last)]);
    case Repeated(n) =>
      CompressRepeats(c, n - 2);
      CompressAppend(start, ps, Repeats(c.last, n - 2));
      assert shown + [] == shown;
  }

  lemma LastOfCompressed(ps: seq<Piece>)
    ensures var (c, n) := (Compress(Compressor([], 0), ps).0, |Lines(ps)|);
            (n > 0 <==> c.count > 0) && (n > 0 ==> c.last == Lines(ps)[n - 1])
  {
    CountAtLeastTwo(ps, []);
  }

  lemma {:induction false} ReplayCompresses(log: seq<Entry>)
    requires !Reads(Start, log).Stuck?
    ensures var (c, shown) := Compress(Compressor([], 0), Replay(log)); Matches(Reads(Start, log), log, c, shown)
  {
    if log != [] {
      hide Matches, Compress, Replay;
      var init, e := log[..|log| - 1], log[|log| - 1];
      assert log == init + [e];
      ReadsAppend(Start, init, [e]);
      ReadsOne(Reads(Start, init), e);
      ReplayCompresses(init);
      ReplayMore(init, e, Replay(init));
    }
  }

  lemma {:induction false} LinesAreOk(ps: seq<Piece>)
    requires Output(ps)
    ensures forall i :: 0 <= i < |Lines(ps)| ==> PieceOk(Full(Lines(ps)[i]))
  {
    hide PieceOk;
    if ps != [] { LinesAreOk(ps[..|ps| - 1]); }
  }

  lemma {:induction false} ReplayIsOutput(log: seq<Entry>)
    requires EntriesOk(log)
    ensures Output(Replay(log))
  {
    hide PieceOk, Lines;
    if log != [] {
      var init, e := log[..|log| - 1], log[|log| - 1];
      ReplayIsOutput(init);
      LinesAreOk(Replay(init));
      if e.Repeated? && Lines(Replay(init)) != [] && e.times >= 2 {
        RepeatsAt(Lines(Replay(init))[|Lines(Replay(init))| - 1], e.times - 2);
      }
    }
  }

  lemma LogOfReplay(log: seq<Entry>)
    requires IsLog(log)
    ensures Output(Replay(log)) && ChildLog(Replay(log)) == log
  {
    ReplayCompresses(log);
    ReplayIsOutput(log);
    var (c, shown) := Compress(Compressor([], 0), Replay(log));
    hide Compress, Replay, Reads, EntriesOk, Output;
    assert log + [] == log;
  }

  /** The logs that children leave are exactly those the reading accepts: a repetition is announced
    behind a line logged once, and counted before the next line, which is another one. */
  lemma ChildLogsAre(log: seq<Entry>)
    ensures IsLog(log) <==> exists ps :: Output(ps) && ChildLog(ps) == log
  {
    if IsLog(log) { LogOfReplay(log); }
    if ps :| Output(ps) && ChildLog(ps) == log { LogsAreRead(ps); }
  }

  // ------------------------------------------------------------------ what the texts tell apart

  lemma CountPartsShape(ch: Channel)
    ensures |CountHead(ch)| == 21 && CountHead(ch)[0] == 115 && OneLine(CountHead(ch))
    ensures |CountTail()| == 6 && CountTail()[0] == 32 && CountTail()[5] == 115 && OneLine(CountTail())
  {
  }

  lemma CountTextShape(ch: Channel, n: nat)
    ensures var t := CountText(ch, n); |t| > 21 && t[0] == 115 && t[|t| - 1] == 115 && OneLine(t)
    ensures CountText(ch, n)[21..] == Decimal(n) + CountTail()
  {
    hide CountHead, CountTail, Decimal;
    CountPartsShape(ch);
    var head, tail := CountHead(ch), CountTail();
    assert CountText(ch, n) == head + (Decimal(n) + tail);
  }

  lemma CountTextInjective(ch: Channel, m: nat, n: nat)
    requires CountText(ch, m) == CountText(ch, n)
    ensures m == n
  {
    hide CountText, CountTail, Decimal, ReadNumber;
    CountTextShape(ch, m);
    CountTextShape(ch, n);
    CountPartsShape(ch);
    DecimalRoundTrip(m, CountTail());
    DecimalRoundTrip(n, CountTail());
  }

  function ChannelName(ch: Channel): Text {
    Ascii(if ch.Stdout? then "stdout" else "stderr")
  }

  /** Each marker names the channel it is about. */
  lemma MarkersNameChannel(ch: Channel, n: nat)
    ensures |RepeatingText(ch)| > 11 && RepeatingText(ch)[5..11] == ChannelName(ch)
    ensures |CountText(ch, n)| > 6 && CountText(ch, n)[..6] == ChannelName(ch)
  {
    hide *;
    RepeatingNames(ch);
    CountNames(ch, n);
  }

  lemma RepeatingNames(ch: Channel)
    ensures |RepeatingText(ch)| > 11 && RepeatingText(ch)[5..11] == ChannelName(ch)
  {
    var text, name := RepeatingText(ch), ChannelName(ch);
    assert text[5] == name[0] && text[6] == name[1] && text[7] == name[2];
    assert text[8] == name[3] && text[9] == name[4] && text[10] == name[5];
    assert text[5..11] == name;
  }

  lemma CountNames(ch: Channel, n: nat)
    ensures |CountText(ch, n)| > 6 && CountText(ch, n)[..6] == ChannelName(ch)
  {
    CountPartsShape(ch);
    HeadNames(ch);
    hide Decimal, CountTail, CountHead, ChannelName;
    assert CountText(ch, n)[..6] == CountHead(ch)[..6];
  }

  lemma HeadNames(ch: Channel)
    ensures |CountHead(ch)| > 6 && CountHead(ch)[..6] == ChannelName(ch)
  {
    assert CountHead(ch)[..6] == ChannelName(ch);
  }

  lemma RepeatingTextShape(ch: Channel)
    ensures var t := RepeatingText(ch); 0 < |t| < BUFFER_SIZE - 1 && t[0] == 108 && OneLine(t)
  {
  }

  lemma TruncatedShape(text: Text)
    requires PieceOk(Cut(text))
    ensures var t := text + TruncatedMark();
            |t| >= BUFFER_SIZE && t[|t| - 1] == 109 && OneLine(t) && t[..BUFFER_SIZE - 1] == text
  {
    var mark := TruncatedMark();
    assert |mark| > 0 && mark[|mark| - 1] == 109 && OneLine(mark);
  }

  lemma BodyIsOneLine(ch: Channel, e: Entry)
    requires EntryOk(e)
    ensures OneLine(Body(ch, e))
  {
    hide OneLine, TruncatedMark, CountText, RepeatingText;
    match e
    case Line(_) =>
    case Repeating => RepeatingTextShape(ch);
    case Repeated(n) => CountTextShape(ch, n);
    case Truncated(text) => TruncatedShape(text);
  }

  predicate IsMarker(e: Entry) {
    e.Repeating? || e.Repeated?
  }

  /** Only a line and a marker of the loader can look alike. */
  lemma SameBody(ch: Channel, e: Entry, f: Entry)
    requires EntryOk(e) && EntryOk(f) && Body(ch, e) == Body(ch, f) && e != f
    ensures (e.Line? && IsMarker(f)) || (IsMarker(e) && f.Line?)
  {
    hide OneLine, TruncatedMark, CountText, RepeatingText;
    RepeatingTextShape(ch);
    if e.Truncated? { TruncatedShape(e.text); }
    if f.Truncated? { TruncatedShape(f.text); }
    if e.Repeated? { CountTextShape(ch, e.times); }
    if f.Repeated? { CountTextShape(ch, f.times); }
    if e.Repeated? && f.Repeated? { CountTextInjective(ch, e.times, f.times); }
  }

  predicate SameBodies(ch: Channel, a: seq<Entry>, b: seq<Entry>) {
    |a| == |b| && forall i :: 0 <= i < |a| ==> Body(ch, a[i]) == Body(ch, b[i])
  }

  lemma FirstLine(a: Text, s: Text, b: Text, t: Text)
    requires OneLine(a) && OneLine(b) && a + [NEWLINE] + s == b + [NEWLINE] + t
    ensures a == b && s == t
  {
    var u := a + [NEWLINE] + s;
    LineEnd(a, s);
    LineEnd(b, t);
    assert |a| == |b|;
    assert a == u[..|a|] == b;
    assert s == u[|a| + 1..] == t;
  }

  lemma LineEnd(a: Text, s: Text)
    requires OneLine(a)
    ensures var u := a + [NEWLINE] + s; u[|a|] == NEWLINE && forall i :: 0 <= i < |a| ==> u[i] != NEWLINE
  {
  }

  /** The printed log can be taken apart into its entries again, whatever stands in front of them. */
  lemma {:induction false} PrintTellsBodies(ch: Channel, heads: nat -> Text, k: nat, a: seq<Entry>, b: seq<Entry>)
    requires EntriesOk(a) && EntriesOk(b)
    ensures Print(ch, heads, k, a) == Print(ch, heads, k, b) <==> SameBodies(ch, a, b)
    decreases |a|
  {
    hide EntryOk, Body;
    if a != [] && b != [] {
      PrintTellsBodies(ch, heads, k + 1, a[1..], b[1..]);
      BodyIsOneLine(ch, a[0]);
      BodyIsOneLine(ch, b[0]);
      FirstPrinted(heads(k), Body(ch, a[0]), Print(ch, heads, k + 1, a[1..]),
                   Body(ch, b[0]), Print(ch, heads, k + 1, b[1..]));
      SameBodiesFirst(ch, a, b);
    }
  }

  lemma FirstPrinted(head: Text, a: Text, s: Text, b: Text, t: Text)
    requires OneLine(a) && OneLine(b)
    ensures head + a + [NEWLINE] + s == head + b + [NEWLINE] + t <==> a == b && s == t
  {
    var u, v := head + a + [NEWLINE] + s, head + b + [NEWLINE] + t;
    if u == v {
      assert u[|head|..] == a + [NEWLINE] + s && v[|head|..] == b + [NEWLINE] + t;
      FirstLine(a, s, b, t);
    }
  }

  lemma SameBodiesFirst(ch: Channel, a: seq<Entry>, b: seq<Entry>)
    requires a != [] && b != []
    ensures SameBodies(ch, a, b) <==> Body(ch, a[0]) == Body(ch, b[0]) && SameBodies(ch, a[1..], b[1..])
  {
    hide Body;
    if Body(ch, a[0]) == Body(ch, b[0]) && SameBodies(ch, a[1..], b[1..]) {
      assert forall i :: 1 <= i < |a| ==> a[i] == a[1..][i - 1] && b[i] == b[1..][i - 1];
    }
  }

  // ------------------------------------------------------------------ a child that prints what the loader would

  /** The log behind the cut pieces it begins with. */
  function Skip(log: seq<Entry>): seq<Entry> {
    if log != [] && log[0].Truncated? then Skip(log[1..]) else log
  }

  /** The entry reads as the count of `n` lines, which would fit a line of the child. */
  predicate ReadsAsCount(ch: Channel, e: Entry, n: nat) {
    n >= 2 && !e.Truncated? && Body(ch, e) == CountText(ch, n) && PieceOk(Full(CountText(ch, n)))
  }

  /** The log ends here, or goes on with a line that is none of these two. */
  predicate OtherLine(log: seq<Entry>, x: Text, y: Text) {
    log == [] || (log[0].Line? && log[0].text != x && log[0].text != y)
  }

  ghost predicate CountFollows(ch: Channel, line: Text, log: seq<Entry>) {
    var b := Skip(log);
    b != [] && exists n :: ReadsAsCount(ch, b[0], n) && OtherLine(b[1..], line, CountText(ch, n))
  }

  /** Behind the line, cut pieces apart, the log reads as if that line were repeated and counted, be it
    so or be it lines of the child; and what follows fits both. */
  ghost predicate MimicAt(ch: Channel, line: Text, log: seq<Entry>) {
    var a := Skip(log);
    && line != RepeatingText(ch)
    && a != [] && !a[0].Truncated? && Body(ch, a[0]) == RepeatingText(ch)
    && CountFollows(ch, line, a[1..])
  }

  /** Somewhere the printed log leaves open who printed the markers. */
  ghost predicate Mimicked(ch: Channel, log: seq<Entry>) {
    exists p :: 0 <= p < |log| && log[p].Line? && MimicAt(ch, log[p].text, log[p + 1..])
  }

  lemma {:induction false} SkipReads(r: Reading, log: seq<Entry>)
    requires !r.Done?
    ensures Reads(r, log) == Reads(r, Skip(log))
    ensures Skip(log) == [] || !Skip(log)[0].Truncated?
    ensures |Skip(log)| <= |log| && Skip(log) == log[|log| - |Skip(log)|..]
    decreases |log|
  {
    if log != [] && log[0].Truncated? { SkipReads(r, log[1..]); }
  }

  lemma {:induction false} SkipBodies(ch: Channel, a: seq<Entry>, b: seq<Entry>)
    requires EntriesOk(a) && EntriesOk(b) && SameBodies(ch, a, b)
    ensures EntriesOk(Skip(a)) && EntriesOk(Skip(b)) && SameBodies(ch, Skip(a), Skip(b))
  {
    hide EntryOk, Body;
    if a != [] {
      SameBodiesFirst(ch, a, b);
      if a[0] != b[0] { SameBody(ch, a[0], b[0]); }
      if a[0].Truncated? { SkipBodies(ch, a[1..], b[1..]); }
    }
  }

  /** Two readings of one text, one behind the marker and one behind a line that looks like it: both come
    to the same count, and then go on alike. */
  lemma BothCount(ch: Channel, line: Text, z: seq<Entry>, x: seq<Entry>) returns (n: nat)
    requires line != RepeatingText(ch) && EntriesOk(z) && EntriesOk(x) && SameBodies(ch, z, x)
    requires Ended(Reads(Again(line), z)) && Ended(Reads(Single(RepeatingText(ch)), x))
    ensures var (b, a, t) := (Skip(z), Skip(x), CountText(ch, n));
            && b != [] && a != [] && n >= 2 && b[0] == Repeated(n) && a[0] == Line(t) && PieceOk(Full(t))
            && EntriesOk(b) && EntriesOk(a) && SameBodies(ch, b[1..], a[1..])
            && Ended(Reads(Done(line), b[1..])) && Ended(Reads(Single(t), a[1..]))
  {
    hide *;
    SkipReads(Again(line), z);
    SkipReads(Single(RepeatingText(ch)), x);
    SkipBodies(ch, z, x);
    n := CountHeads(ch, line, Skip(z), Skip(x));
  }

  lemma CountHeads(ch: Channel, line: Text, b: seq<Entry>, a: seq<Entry>) returns (n: nat)
    requires EntriesOk(b) && EntriesOk(a) && SameBodies(ch, b, a)
    requires (b == [] || !b[0].Truncated?) && (a == [] || !a[0].Truncated?)
    requires Ended(Reads(Again(line), b)) && Ended(Reads(Single(RepeatingText(ch)), a))
    ensures var t := CountText(ch, n);
            && b != [] && a != [] && n >= 2 && b[0] == Repeated(n) && a[0] == Line(t) && PieceOk(Full(t))
            && SameBodies(ch, b[1..], a[1..])
            && Ended(Reads(Done(line), b[1..])) && Ended(Reads(Single(t), a[1..]))
  {
    hide PieceOk, RepeatingText, CountText;
    StaysStuck(b[1..]);
    StaysStuck(a[1..]);
    n := b[0].times;
    RepeatingTextShape(ch);
    CountTextShape(ch, n);
    SameBodiesFirst(ch, b, a);
    assert !a[0].Repeated?;
    SameBody(ch, b[0], a[0]);
  }

  /** So the marker is open to both readings, if what follows the line reads on as it does. */
  lemma CountIsOpen(ch: Channel, line: Text, z: seq<Entry>, x: seq<Entry>)
    requires line != RepeatingText(ch) && EntriesOk(z) && EntriesOk(x) && SameBodies(ch, z, x)
    requires Ended(Reads(Again(line), z)) && Ended(Reads(Single(RepeatingText(ch)), x))
    ensures CountFollows(ch, line, z)
  {
    hide PieceOk, RepeatingText, CountText, Skip;
    var n := BothCount(ch, line, z, x);
    var b, a, t := Skip(z), Skip(x), CountText(ch, n);
    NextIsOther(ch, line, n, b[1..], a[1..]);
    assert ReadsAsCount(ch, b[0], n);
  }

  lemma NextIsOther(ch: Channel, line: Text, n: nat, v: seq<Entry>, u: seq<Entry>)
    requires EntriesOk(v) && EntriesOk(u) && SameBodies(ch, v, u)
    requires Ended(Reads(Done(line), v)) && Ended(Reads(Single(CountText(ch, n)), u))
    ensures OtherLine(v, line, CountText(ch, n))
    ensures v != [] ==> u[0] == v[0] || (u[0].Repeating? && v[0] == Line(RepeatingText(ch)))
  {
    hide EntryOk, RepeatingText, CountText;
    if v != [] {
      StaysStuck(v[1..]);
      StaysStuck(u[1..]);
      RepeatingTextShape(ch);
      CountTextShape(ch, n);
      if u[0] != v[0] { SameBody(ch, u[0], v[0]); }
    }
  }

  /** The log that has lines of the child where the other one has markers. */
  lemma LinesAreOpen(ch: Channel, line: Text, z: seq<Entry>, x: seq<Entry>)
    requires line != RepeatingText(ch) && EntriesOk(z) && EntriesOk(x) && SameBodies(ch, z, x)
    requires Ended(Reads(Again(line), z)) && Ended(Reads(Single(RepeatingText(ch)), x))
    ensures CountFollows(ch, line, x) || Mimicked(ch, x)
  {
    hide PieceOk, RepeatingText, CountText, Skip;
    var n := BothCount(ch, line, z, x);
    var b, a, t := Skip(z), Skip(x), CountText(ch, n);
    NextIsOther(ch, line, n, b[1..], a[1..]);
    if a[1..] == [] || a[1] == b[1] {
      assert ReadsAsCount(ch, a[0], n);
    } else {
      RepeatingTextShape(ch);
      CountTextShape(ch, n);
      SameBodiesFirst(ch, b[1..], a[1..]);
      CountIsOpen(ch, t, a[2..], b[2..]);
      OpenBehind(ch, t, x);
    }
  }

  lemma OpenBehind(ch: Channel, line: Text, x: seq<Entry>)
    requires var a := Skip(x); |a| >= 2 && a[0] == Line(line) && a[1] == Repeating && CountFollows(ch, line, a[2..])
    requires line != RepeatingText(ch)
    ensures Mimicked(ch, x)
  {
    hide CountFollows, RepeatingText;
    var a := Skip(x);
    SkipReads(Start, x);
    var p := |x| - |a|;
    assert x[p] == a[0] && x[p + 1..] == a[1..] && a[1..][1..] == a[2..];
    assert Skip(a[1..]) == a[1..];
    assert MimicAt(ch, x[p].text, x[p + 1..]);
  }

  /** From a reading on, the printed log leaves open who printed the markers. */
  ghost predicate OpenFrom(ch: Channel, r: Reading, log: seq<Entry>) {
    (r.Single? && MimicAt(ch, r.line, log)) || Mimicked(ch, log)
  }

  lemma OpenTail(ch: Channel, r: Reading, log: seq<Entry>)
    requires log != [] && Ended(Reads(r, log)) && OpenFrom(ch, Read(r, log[0]), log[1..])
    ensures OpenFrom(ch, r, log)
  {
    hide RepeatingText, CountFollows;
    var e, tail := log[0], log[1..];
    StaysStuck(tail);
    if Mimicked(ch, tail) {
      var p :| 0 <= p < |tail| && tail[p].Line? && MimicAt(ch, tail[p].text, tail[p + 1..]);
      assert log[p + 1] == tail[p] && log[p + 1 + 1..] == tail[p + 1..];
    } else if e.Line? {
      assert MimicAt(ch, log[0].text, log[0 + 1..]);
    }
  }

  /** Here the two readings part: one takes the marker for what it is, the other for a line. */
  lemma Parting(ch: Channel, line: Text, log: seq<Entry>, other: seq<Entry>)
    requires EntriesOk(log) && EntriesOk(other) && SameBodies(ch, log, other)
    requires Ended(Reads(Single(line), log)) && Ended(Reads(Single(line), other))
    requires log != [] && other != [] && log[0] != other[0]
    ensures OpenFrom(ch, Single(line), log)
  {
    hide PieceOk, RepeatingText, CountText, CountFollows;
    var x, z := log[1..], other[1..];
    SameBodiesFirst(ch, log, other);
    SameBody(ch, log[0], other[0]);
    StaysStuck(x);
    StaysStuck(z);
    if log[0].Line? {
      LinesAreOpen(ch, line, z, x);
      if Mimicked(ch, x) { OpenTail(ch, Single(line), log); }
    } else {
      SameBodiesSwap(ch, z, x);
      CountIsOpen(ch, line, x, z);
    }
  }

  lemma SameBodiesSwap(ch: Channel, a: seq<Entry>, b: seq<Entry>)
    ensures SameBodies(ch, a, b) <==> SameBodies(ch, b, a)
  {
  }

  /** Two logs that print alike differ only behind a place that is open. */
  lemma {:induction false} DifferentLogsAreOpen(ch: Channel, r: Reading, log: seq<Entry>, other: seq<Entry>)
    requires EntriesOk(log) && EntriesOk(other) && SameBodies(ch, log, other) && log != other
    requires Ended(Reads(r, log)) && Ended(Reads(r, other))
    ensures OpenFrom(ch, r, log)
    decreases |log|
  {
    hide PieceOk, RepeatingText, CountText, MimicAt, Mimicked, OpenFrom;
    SameBodiesFirst(ch, log, other);
    if log[0] == other[0] {
      assert log == [log[0]] + log[1..] && other == [other[0]] + other[1..];
      DifferentLogsAreOpen(ch, Read(r, log[0]), log[1..], other[1..]);
      OpenTail(ch, r, log);
    } else {
      SameBody(ch, log[0], other[0]);
      StaysStuck(log[1..]);
      StaysStuck(other[1..]);
      Parting(ch, r.line, log, other);
    }
  }

  // ------------------------------------------------------------------ the other child

  predicate AllTruncated(log: seq<Entry>) {
    forall i :: 0 <= i < |log| ==> log[i].Truncated?
  }

  /** Behind `pre` the loader has counted, or the child has printed the same. */
  function Marked(pre: seq<Entry>, mid: seq<Entry>, n: nat, rest: seq<Entry>): seq<Entry> {
    pre + [Repeating] + mid + [Repeated(n)] + rest
  }

  function Spoken(ch: Channel, pre: seq<Entry>, mid: seq<Entry>, n: nat, rest: seq<Entry>): seq<Entry> {
    pre + [Line(RepeatingText(ch))] + mid + [Line(CountText(ch, n))] + rest
  }

  lemma {:induction false} TruncatedReads(r: Reading, log: seq<Entry>)
    requires AllTruncated(log) && !r.Done?
    ensures Reads(r, log) == r
    decreases |log|
  {
    if log != [] { TruncatedReads(r, log[1..]); }
  }

  lemma ReadsMiddle(r: Reading, pre: seq<Entry>, e: Entry, mid: seq<Entry>, f: Entry, rest: seq<Entry>)
    requires AllTruncated(mid) && !Read(Reads(r, pre), e).Done?
    ensures Reads(r, pre + [e] + mid + [f] + rest) == Reads(Read(Read(Reads(r, pre), e), f), rest)
  {
    hide Read;
    ReadsAppend(r, pre + [e] + mid + [f], rest);
    ReadsAppend(r, pre + [e] + mid, [f]);
    ReadsAppend(r, pre + [e], mid);
    ReadsAppend(r, pre, [e]);
    TruncatedReads(Read(Reads(r, pre), e), mid);
    ReadsOne(Reads(r, pre), e);
    ReadsOne(Read(Reads(r, pre), e), f);
  }

  /** Both are logs, if one of them is. */
  lemma TwinsEnd(ch: Channel, line: Text, pre: seq<Entry>, mid: seq<Entry>, n: nat, rest: seq<Entry>)
    requires AllTruncated(mid) && Reads(Start, pre) == Single(line)
    requires line != RepeatingText(ch) && n >= 2 && OtherLine(rest, line, CountText(ch, n))
    ensures Ended(Reads(Start, Marked(pre, mid, n, rest))) <==> Ended(Reads(Start, Spoken(ch, pre, mid, n, rest)))
  {
    hide RepeatingText, CountText;
    RepeatingTextShape(ch);
    CountTextShape(ch, n);
    ReadsMiddle(Start, pre, Repeating, mid, Repeated(n), rest);
    ReadsMiddle(Start, pre, Line(RepeatingText(ch)), mid, Line(CountText(ch, n)), rest);
  }

  lemma SameBodiesAppend(ch: Channel, a: seq<Entry>, b: seq<Entry>, c: seq<Entry>, d: seq<Entry>)
    requires SameBodies(ch, a, b) && SameBodies(ch, c, d)
    ensures SameBodies(ch, a + c, b + d)
  {
    hide Body;
  }

  lemma TwinsPrintAlike(ch: Channel, pre: seq<Entry>, mid: seq<Entry>, n: nat, rest: seq<Entry>)
    ensures SameBodies(ch, Marked(pre, mid, n, rest), Spoken(ch, pre, mid, n, rest))
  {
    hide SameBodies, RepeatingText, CountText;
    var e, f, g, h := [Repeating], [Line(RepeatingText(ch))], [Repeated(n)], [Line(CountText(ch, n))];
    assert SameBodies(ch, e, f) && SameBodies(ch, g, h) by { BodiesOfMarkers(ch, n); }
    SameBodiesSelf(ch, pre);
    SameBodiesSelf(ch, mid);
    SameBodiesSelf(ch, rest);
    SameBodiesAppend(ch, pre, pre, e, f);
    SameBodiesAppend(ch, pre + e, pre + f, mid, mid);
    SameBodiesAppend(ch, pre + e + mid, pre + f + mid, g, h);
    SameBodiesAppend(ch, pre + e + mid + g, pre + f + mid + h, rest, rest);
  }

  lemma BodiesOfMarkers(ch: Channel, n: nat)
    ensures SameBodies(ch, [Repeating], [Line(RepeatingText(ch))])
    ensures SameBodies(ch, [Repeated(n)], [Line(CountText(ch, n))])
  {
  }

  lemma SameBodiesSelf(ch: Channel, log: seq<Entry>)
    ensures SameBodies(ch, log, log)
  {
  }

  lemma {:induction false} ExpandGrows(a: seq<Entry>, b: seq<Entry>)
    ensures |Expand(a)| <= |Expand(a + b)| && Expand(a + b)[..|Expand(a)|] == Expand(a)
  {
    if b == [] {
      assert a + b == a;
    } else {
      hide Expand;
      var init, e := b[..|b| - 1], b[|b| - 1];
      assert a + b == a + init + [e];
      ExpandGrows(a, init);
      ExpandOne(a + init, e);
    }
  }

  lemma {:induction false} ExpandTruncated(a: seq<Entry>, mid: seq<Entry>)
    requires AllTruncated(mid)
    ensures Expand(a + mid) == Expand(a)
  {
    if mid == [] {
      assert a + mid == a;
    } else {
      var init, e := mid[..|mid| - 1], mid[|mid| - 1];
      assert a + mid == a + init + [e];
      ExpandTruncated(a, init);
      ExpandOne(a + init, e);
    }
  }

  lemma {:induction false} CopiesFirst(x: Text, n: nat)
    requires n > 0
    ensures |Copies(x, n)| > 0 && Copies(x, n)[0] == x
  {
    if n > 1 { CopiesFirst(x, n - 1); }
  }

  /** The lines read back are not the same. */
  lemma TwinsDiffer(ch: Channel, line: Text, pre: seq<Entry>, mid: seq<Entry>, n: nat, rest: seq<Entry>)
    requires AllTruncated(mid) && n >= 2 && line != RepeatingText(ch)
    requires Expand(pre) != [] && Expand(pre)[|Expand(pre)| - 1] == line
    ensures Expand(Marked(pre, mid, n, rest)) != Expand(Spoken(ch, pre, mid, n, rest))
  {
    hide Expand, RepeatingText, CountText, Copies;
    var k, m := |Expand(pre)|, RepeatingText(ch);
    var a, b := pre + [Repeating] + mid + [Repeated(n)], pre + [Line(m)];
    ExpandOne(pre, Repeating);
    ExpandTruncated(pre + [Repeating], mid);
    ExpandOne(pre + [Repeating] + mid, Repeated(n));
    CopiesFirst(line, n - 1);
    assert Expand(a)[k] == line;
    ExpandGrows(a, rest);
    ExpandOne(pre, Line(m));
    assert Expand(b)[k] == m;
    ExpandGrows(b, mid + [Line(CountText(ch, n))] + rest);
    assert b + (mid + [Line(CountText(ch, n))] + rest) == Spoken(ch, pre, mid, n, rest);
    assert Expand(Marked(pre, mid, n, rest))[..|Expand(a)|][k] == line;
    assert Expand(Spoken(ch, pre, mid, n, rest))[..|Expand(b)|][k] == m;
  }

  lemma {:induction false} SkippedAreTruncated(log: seq<Entry>)
    ensures |Skip(log)| <= |log| && AllTruncated(log[..|log| - |Skip(log)|])
    ensures log == log[..|log| - |Skip(log)|] + Skip(log)
  {
    if log != [] && log[0].Truncated? {
      var tail := log[1..];
      SkippedAreTruncated(tail);
      assert log == [log[0]] + tail && Skip(log) == Skip(tail);
      assert log[..|log| - |Skip(log)|] == [log[0]] + tail[..|tail| - |Skip(tail)|];
    }
  }

  /** Behind a line of a log that line is the last one. */
  lemma BehindLine(log: seq<Entry>, p: nat)
    requires IsLog(log) && p < |log| && log[p].Line?
    ensures Reads(Start, log[..p + 1]) == Single(log[p].text)
    ensures var x := Expand(log[..p + 1]); x != [] && x[|x| - 1] == log[p].text
  {
    hide EntriesOk, Expand;
    var pre, rest := log[..p + 1], log[p + 1..];
    assert log == pre + rest && pre == log[..p] + [log[p]];
    ReadsAppend(Start, pre, rest);
    StaysStuck(rest);
    ReadsAppend(Start, log[..p], [log[p]]);
    ReadsOne(Reads(Start, log[..p]), log[p]);
    ExpandOne(log[..p], log[p]);
  }

  /** Two entries that read as the markers are the markers, or are lines, both of them. */
  lemma MarkersTogether(ch: Channel, line: Text, pre: seq<Entry>, e: Entry, mid: seq<Entry>, f: Entry,
                        rest: seq<Entry>, n: nat)
    requires Reads(Start, pre) == Single(line) && AllTruncated(mid)
    requires Ended(Reads(Start, pre + [e] + mid + [f] + rest)) && EntryOk(e) && EntryOk(f)
    requires !e.Truncated? && Body(ch, e) == RepeatingText(ch) && ReadsAsCount(ch, f, n)
    ensures (e == Repeating && f == Repeated(n)) || (e == Line(RepeatingText(ch)) && f == Line(CountText(ch, n)))
  {
    hide PieceOk, RepeatingText, CountText;
    RepeatingTextShape(ch);
    CountTextShape(ch, n);
    if e != Repeating { SameBody(ch, e, Repeating); }
    if f != Repeated(n) { SameBody(ch, f, Repeated(n)); }
    ReadsMiddle(Start, pre, e, mid, f, rest);
    StaysStuck(rest);
  }

  lemma TwinsAreOk(ch: Channel, pre: seq<Entry>, mid: seq<Entry>, n: nat, rest: seq<Entry>)
    requires EntriesOk(pre) && EntriesOk(mid) && EntriesOk(rest) && PieceOk(Full(CountText(ch, n)))
    ensures EntriesOk(Marked(pre, mid, n, rest)) && EntriesOk(Spoken(ch, pre, mid, n, rest))
  {
    hide PieceSize, OneLine, RepeatingText, CountText;
    RepeatingFits(ch);
  }

  lemma RepeatingFits(ch: Channel)
    ensures PieceOk(Full(RepeatingText(ch)))
  {
    RepeatingTextShape(ch);
  }

  lemma OtherLog(ch: Channel, line: Text, pre: seq<Entry>, mid: seq<Entry>, n: nat, rest: seq<Entry>, log: seq<Entry>)
    returns (other: seq<Entry>)
    requires log == Marked(pre, mid, n, rest) || log == Spoken(ch, pre, mid, n, rest)
    requires Ended(Reads(Start, log)) && EntriesOk(pre) && EntriesOk(mid) && EntriesOk(rest)
    requires AllTruncated(mid) && Reads(Start, pre) == Single(line) && PieceOk(Full(CountText(ch, n)))
    requires line != RepeatingText(ch) && n >= 2 && OtherLine(rest, line, CountText(ch, n))
    requires Expand(pre) != [] && Expand(pre)[|Expand(pre)| - 1] == line
    ensures IsLog(other) && SameBodies(ch, log, other) && Expand(log) != Expand(other)
  {
    hide Marked, Spoken, PieceOk, EntriesOk, RepeatingText, CountText, SameBodies, AllTruncated, OtherLine, Expand;
    TwinsEnd(ch, line, pre, mid, n, rest);
    TwinsPrintAlike(ch, pre, mid, n, rest);
    TwinsDiffer(ch, line, pre, mid, n, rest);
    TwinsAreOk(ch, pre, mid, n, rest);
    SameBodiesSwap(ch, Marked(pre, mid, n, rest), Spoken(ch, pre, mid, n, rest));
    other := if log == Marked(pre, mid, n, rest) then Spoken(ch, pre, mid, n, rest) else Marked(pre, mid, n, rest);
  }

  /** The parts of an open log: a line at `p`, cut pieces, the first marker or what reads like it, cut
    pieces, the count, and the rest. */
  lemma OpenPlace(ch: Channel, log: seq<Entry>)
    returns (p: nat, m: seq<Entry>, e: Entry, mid: seq<Entry>, f: Entry, rest: seq<Entry>, n: nat)
    requires Mimicked(ch, log)
    ensures p < |log| && log[p].Line? && log[p].text != RepeatingText(ch)
    ensures log == log[..p + 1] + m + [e] + mid + [f] + rest && AllTruncated(m) && AllTruncated(mid)
    ensures !e.Truncated? && Body(ch, e) == RepeatingText(ch)
    ensures ReadsAsCount(ch, f, n) && OtherLine(rest, log[p].text, CountText(ch, n))
  {
    hide PieceOk, RepeatingText, CountText, Skip, Body, AllTruncated, ReadsAsCount, OtherLine;
    p :| 0 <= p < |log| && log[p].Line? && MimicAt(ch, log[p].text, log[p + 1..]);
    var tail := log[p + 1..];
    var a := Skip(tail);
    var s := a[1..];
    var b := Skip(s);
    n :| ReadsAsCount(ch, b[0], n) && OtherLine(b[1..], log[p].text, CountText(ch, n));
    SkippedAreTruncated(tail);
    SkippedAreTruncated(s);
    m, e, mid, f, rest := tail[..|tail| - |a|], a[0], s[..|s| - |b|], b[0], b[1..];
    Reassembled(log, p, m, a, mid, b);
  }

  /** Where the printed log leaves open who printed the markers, another child printed the same. */
  lemma OpenLogHasTwin(ch: Channel, log: seq<Entry>) returns (other: seq<Entry>)
    requires IsLog(log) && Mimicked(ch, log)
    ensures IsLog(other) && SameBodies(ch, log, other) && Expand(log) != Expand(other)
  {
    hide *;
    var p, m, e, mid, f, rest, n := OpenPlace(ch, log);
    BehindLine(log, p);
    ReadsAppend(Start, log[..p + 1], m);
    TruncatedReads(Single(log[p].text), m);
    ExpandTruncated(log[..p + 1], m);
    other := OpenParts(ch, log[p].text, log[..p + 1] + m, e, mid, f, rest, n);
  }

  lemma Reassembled(log: seq<Entry>, p: nat, m: seq<Entry>, a: seq<Entry>, mid: seq<Entry>, b: seq<Entry>)
    requires p < |log| && log[p + 1..] == m + a && a != [] && b != [] && a[1..] == mid + b
    ensures log == log[..p + 1] + m + [a[0]] + mid + [b[0]] + b[1..]
  {
    assert a == [a[0]] + a[1..] && b == [b[0]] + b[1..];
    assert log == log[..p + 1] + log[p + 1..];
  }

  lemma OpenParts(ch: Channel, line: Text, pre: seq<Entry>, e: Entry, mid: seq<Entry>, f: Entry,
                  rest: seq<Entry>, n: nat)
    returns (other: seq<Entry>)
    requires IsLog(pre + [e] + mid + [f] + rest) && AllTruncated(mid) && Reads(Start, pre) == Single(line)
    requires Expand(pre) != [] && Expand(pre)[|Expand(pre)| - 1] == line
    requires !e.Truncated? && Body(ch, e) == RepeatingText(ch) && ReadsAsCount(ch, f, n)
    requires line != RepeatingText(ch) && OtherLine(rest, line, CountText(ch, n))
    ensures var log := pre + [e] + mid + [f] + rest;
            IsLog(other) && SameBodies(ch, log, other) && Expand(log) != Expand(other)
  {
    hide PieceOk, RepeatingText, CountText, Expand, OtherLine, SameBodies;
    var log := pre + [e] + mid + [f] + rest;
    PartsAreOk(pre, e, mid, f, rest);
    MarkersTogether(ch, line, pre, e, mid, f, rest, n);
    other := OtherLog(ch, line, pre, mid, n, rest, log);
  }

  lemma PartsAreOk(pre: seq<Entry>, e: Entry, mid: seq<Entry>, f: Entry, rest: seq<Entry>)
    requires EntriesOk(pre + [e] + mid + [f] + rest)
    ensures EntriesOk(pre) && EntryOk(e) && EntriesOk(mid) && EntryOk(f) && EntriesOk(rest)
  {
    hide EntryOk;
    var log, i := pre + [e] + mid + [f] + rest, |pre| + 1 + |mid|;
    assert forall k :: 0 <= k < |pre| ==> log[k] == pre[k];
    assert log[|pre|] == e && log[i] == f;
    assert forall k :: 0 <= k < |mid| ==> log[|pre| + 1 + k] == mid[k];
    assert forall k :: 0 <= k < |rest| ==> log[i + 1 + k] == rest[k];
  }

  // ------------------------------------------------------------------ what the printed log tells

  function Printed(ch: Channel, heads: nat -> Text, ps: seq<Piece>): Text {
    Print(ch, heads, 0, ChildLog(ps))
  }

  lemma PrintedAlike(ch: Channel, heads: nat -> Text, ps: seq<Piece>, qs: seq<Piece>)
    requires Output(ps) && Output(qs)
    ensures IsLog(ChildLog(ps)) && IsLog(ChildLog(qs))
    ensures Printed(ch, heads, ps) == Printed(ch, heads, qs) <==> SameBodies(ch, ChildLog(ps), ChildLog(qs))
  {
    LogsAreRead(ps);
    LogsAreRead(qs);
    PrintTellsBodies(ch, heads, 0, ChildLog(ps), ChildLog(qs));
  }

  /** Two children whose printed logs are the same have left the same log, unless it is open. */
  lemma PrintedLogIsLog(ch: Channel, heads: nat -> Text, ps: seq<Piece>, qs: seq<Piece>)
    requires Output(ps) && Output(qs) && Printed(ch, heads, qs) == Printed(ch, heads, ps)
    requires !Mimicked(ch, ChildLog(ps))
    ensures ChildLog(qs) == ChildLog(ps)
  {
    hide ChildLog, Output, Printed, Mimicked, SameBodies, Reads;
    PrintedAlike(ch, heads, ps, qs);
    if ChildLog(qs) != ChildLog(ps) { DifferentLogsAreOpen(ch, Start, ChildLog(ps), ChildLog(qs)); }
  }

  lemma OpenOutputHasTwin(ch: Channel, heads: nat -> Text, ps: seq<Piece>) returns (qs: seq<Piece>)
    requires Output(ps) && Mimicked(ch, ChildLog(ps))
    ensures Output(qs) && Printed(ch, heads, qs) == Printed(ch, heads, ps) && Lines(qs) != Lines(ps)
  {
    hide ChildLog, Output, Printed, Mimicked, IsLog, Lines, SameBodies;
    LogsAreRead(ps);
    var other := OpenLogHasTwin(ch, ChildLog(ps));
    LogOfReplay(other);
    qs := Replay(other);
    PrintedAlike(ch, heads, ps, qs);
    CompressionIsLossless(ps);
    CompressionIsLossless(qs);
  }

  /** The printed log gives a child's lines and cut pieces back exactly if it nowhere leaves open whether
    the markers are the loader's or the child's. */
  lemma PrintedLinesExactlyWhen(ch: Channel, heads: nat -> Text, ps: seq<Piece>)
    requires Output(ps)
    ensures (forall qs :: Output(qs) && Printed(ch, heads, qs) == Printed(ch, heads, ps) ==>
                            Lines(qs) == Lines(ps) && Cuts(qs) == Cuts(ps))
            <==> !Mimicked(ch, ChildLog(ps))
  {
    hide ChildLog, Output, Printed, Mimicked, Lines, Cuts;
    if Mimicked(ch, ChildLog(ps)) {
      var qs := OpenOutputHasTwin(ch, heads, ps);
    } else {
      forall qs | Output(qs) && Printed(ch, heads, qs) == Printed(ch, heads, ps)
        ensures Lines(qs) == Lines(ps) && Cuts(qs) == Cuts(ps)
      {
        PrintedLogIsLog(ch, heads, ps, qs);
        CompressionIsLossless(ps);
        CompressionIsLossless(qs);
      }
    }
  }

  /** It tells the whole output, order included, exactly if besides no cut piece is blurred. */
  lemma PrintedOutputExactlyWhen(ch: Channel, heads: nat -> Text, ps: seq<Piece>)
    requires Output(ps)
    ensures (forall qs :: Output(qs) && Printed(ch, heads, qs) == Printed(ch, heads, ps) ==> qs == ps)
            <==> !Mimicked(ch, ChildLog(ps)) && !Blurred(ps)
  {
    hide ChildLog, Output, Mimicked, Lines, Blurred, Print;
    if Mimicked(ch, ChildLog(ps)) {
      var qs := OpenOutputHasTwin(ch, heads, ps);
    } else if Blurred(ps) {
      var qs := BlurredSwap(ps);
      SamePiecesAreOutput(ps, qs);
    } else {
      forall qs | Output(qs) && Printed(ch, heads, qs) == Printed(ch, heads, ps)
        ensures qs == ps
      {
        PrintedLogIsLog(ch, heads, ps, qs);
        LogDeterminesOutputExactlyWhen(ps);
      }
    }
  }

  lemma SamePiecesAreOutput(ps: seq<Piece>, qs: seq<Piece>)
    requires Output(ps) && forall q <- qs :: q in ps
    ensures Output(qs)
  {
    hide PieceOk;
    forall i | 0 <= i < |qs| ensures PieceOk(qs[i]) { assert qs[i] in ps; }
  }

  // ------------------------------------------------------------------ ordinary children
  /** No line of the child reads like a marker. */
  ghost predicate Ordinary(ch: Channel, ps: seq<Piece>) {
    forall p <- ps :: p.Full? ==> !ReadsAsMarker(ch, p.text)
  }

  ghost predicate ReadsAsMarker(ch: Channel, t: Text) {
    t == RepeatingText(ch) || exists n :: t == CountText(ch, n)
  }

  lemma {:induction false} LinesComeFromPieces(ps: seq<Piece>)
    ensures forall e <- Compress(Compressor([], 0), ps).1 :: e.Line? ==> Full(e.text) in ps
  {
    if ps != [] {
      var init, p := ps[..|ps| - 1], ps[|ps| - 1];
      LinesComeFromPieces(init);
      var (c, log) := Compress(Compressor([], 0), init);
      assert ps == init + [p];
      assert forall e <- CompressPiece(c, p).1 :: e.Line? ==> Full(e.text) == p;
    }
  }

  lemma OrdinaryLog(ch: Channel, ps: seq<Piece>, e: Entry)
    requires Ordinary(ch, ps) && e in ChildLog(ps) && e.Line?
    ensures !ReadsAsMarker(ch, e.text)
  {
    hide ReadsAsMarker;
    LinesComeFromPieces(ps);
    var (c, log) := Compress(Compressor([], 0), ps);
    hide Compress;
    assert e in log;
  }

  /** Among children that print nothing of the kind the printed log is as good as the log. */
  lemma OrdinaryLogsAreTold(ch: Channel, heads: nat -> Text, ps: seq<Piece>, qs: seq<Piece>)
    requires Output(ps) && Output(qs) && Ordinary(ch, ps) && Ordinary(ch, qs)
    ensures Printed(ch, heads, ps) == Printed(ch, heads, qs) <==> ChildLog(ps) == ChildLog(qs)
  {
    hide ChildLog, Output, Printed, Ordinary, Reads, EntryOk, CountText, RepeatingText;
    var a, b := ChildLog(ps), ChildLog(qs);
    PrintedAlike(ch, heads, ps, qs);
    if SameBodies(ch, a, b) {
      forall i | 0 <= i < |a|
        ensures a[i] == b[i]
      {
        if a[i] != b[i] {
          SameBody(ch, a[i], b[i]);
          if a[i].Line? { OrdinaryLog(ch, ps, a[i]); } else { OrdinaryLog(ch, qs, b[i]); }
        }
      }
    }
  }

  /** So for them nothing but blurred cut pieces is lost. */
  lemma OrdinaryOutputExactlyWhen(ch: Channel, heads: nat -> Text, ps: seq<Piece>)
    requires Output(ps) && Ordinary(ch, ps)
    ensures (forall qs :: Output(qs) && Ordinary(ch, qs) && Printed(ch, heads, qs) == Printed(ch, heads, ps) ==>
                            Lines(qs) == Lines(ps) && Cuts(qs) == Cuts(ps))
    ensures (forall qs :: Output(qs) && Ordinary(ch, qs) && Printed(ch, heads, qs) == Printed(ch, heads, ps) ==>
                            qs == ps)
            <==> !Blurred(ps)
  {
    hide ChildLog, Output, Printed, Lines, Cuts, Blurred, ReadsAsMarker;
    forall qs | Output(qs) && Ordinary(ch, qs) && Printed(ch, heads, qs) == Printed(ch, heads, ps)
      ensures Lines(qs) == Lines(ps) && Cuts(qs) == Cuts(ps) && (!Blurred(ps) ==> qs == ps)
    {
      OrdinaryLogsAreTold(ch, heads, ps, qs);
      LogDeterminesOutputExactlyWhen(ps);
      CompressionIsLossless(ps);
      CompressionIsLossless(qs);
    }
    if Blurred(ps) {
      var qs := BlurredSwap(ps);
      SamePiecesAreOutput(ps, qs);
      OrdinaryLogsAreTold(ch, heads, ps, qs);
    }
  }

  /** The smallest example: a line printed twice, or printed once with both markers behind it. Neither is
    blurred, and only the second child is out of the ordinary. */
  lemma MarkersCanBePrinted(ch: Channel, heads: nat -> Text, x: Text)
    requires PieceOk(Full(x)) && !ReadsAsMarker(ch, x)
    ensures var ps, qs := [Full(x), Full(x)], [Full(x), Full(RepeatingText(ch)), Full(CountText(ch, 2))];
            && Output(ps) && Output(qs) && !Blurred(ps) && !Blurred(qs) && Ordinary(ch, ps)
            && ps != qs && Printed(ch, heads, ps) == Printed(ch, heads, qs)
  {
    hide PieceOk, RepeatingText, CountText, Printed, ChildLog, Blurred;
    var m, t := RepeatingText(ch), CountText(ch, 2);
    RepeatingTextShape(ch);
    CountTextShape(ch, 2);
    RepeatingFits(ch);
    CountOfTwoFits(ch);
    LogOfTwo(x);
    LogOfThree(x, m, t);
    assert ReadsAsMarker(ch, m) && ReadsAsMarker(ch, t);
    PrintedAlike(ch, heads, [Full(x), Full(x)], [Full(x), Full(m), Full(t)]);
  }

  lemma LogOfTwo(x: Text)
    ensures ChildLog([Full(x), Full(x)]) == [Line(x), Repeating, Repeated(2)] && !Blurred([Full(x), Full(x)])
  {
    CompressTwo(Compressor([], 0), Full(x), Full(x));
    hide Compress;
  }

  lemma LogOfThree(x: Text, y: Text, z: Text)
    requires x != y && y != z
    ensures ChildLog([Full(x), Full(y), Full(z)]) == [Line(x), Line(y), Line(z)]
    ensures !Blurred([Full(x), Full(y), Full(z)])
  {
    hide Compress;
    CompressTwo(Compressor([], 0), Full(x), Full(y));
    Compress1(Compressor(y, 1), Full(z));
    CompressAppend(Compressor([], 0), [Full(x), Full(y)], [Full(z)]);
    assert [Full(x), Full(y)] + [Full(z)] == [Full(x), Full(y), Full(z)];
  }

  lemma CountOfTwoFits(ch: Channel)
    ensures PieceOk(Full(CountText(ch, 2)))
  {
    CountTextShape(ch, 2);
    assert |CountText(ch, 2)[21..]| == 7;
  }
}

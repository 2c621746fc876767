/** Reading a child's output through the fixed buffer. */
module Loader {
  import opened Bytes
  import opened ChildOutput

  /** The reading end of a child's output. How much one read returns is up to the system. */
  class Pipe {
    var data: Text

    constructor (data: Text)
      ensures this.data == data
    {
      this.data := data;
    }

    /** read: some bytes, at most `max`; or nothing, with a result of 0 or -1. */
    method Read(max: nat) returns (ret: int, bytes: Text)
      requires max > 0
      modifies this
      ensures -1 <= ret <= max && |bytes| == (if ret > 0 then ret else 0)
      ensures old(data) == bytes + data
    {
      bytes := [];
      ret :| -1 <= ret <= max && ret <= |data|;
      if ret > 0 {
        bytes := data[..ret];
        data := data[ret..];
      }
    }
  }

  predicate NulFree(s: Text) {
    forall i :: 0 <= i < |s| ==> s[i] != 0
  }

  class ChildStream {
    const buffer: array<Byte>
    var fill: nat
    var lastLine: Text
    var repeatCount: nat
    var log: seq<Entry>

    ghost predicate Valid()
      reads this, buffer
    {
      && buffer.Length == BUFFER_SIZE && fill < BUFFER_SIZE - 1
      && OneLine(buffer[..fill]) && NulFree(buffer[..fill])
    }

    function Counter(): Compressor
      reads this
    {
      Compressor(lastLine, repeatCount)
    }

    constructor ()
      ensures Valid() && fresh(buffer) && fill == 0 && Counter() == Compressor([], 0) && log == []
    {
      buffer := new Byte[BUFFER_SIZE];
      fill := 0;
      lastLine, repeatCount := [], 0;
      log := [];
    }

    /** loader_check_line_repeat_end */
    method CheckRepeatEnd()
      modifies this`log
      ensures log == old(log) + RepeatEnd(repeatCount)
    {
      if repeatCount >= 2 {
        log := log + [Repeated(repeatCount)];
      }
    }

    /** The body of the line loop: one complete line is logged or counted. */
    method LogLine(line: Text)
      modifies this`log, this`lastLine, this`repeatCount
      ensures var (c, more) := CompressPiece(old(Counter()), Full(line));
              Counter() == c && log == old(log) + more
    {
      if repeatCount > 0 && lastLine == line {
        if repeatCount == 1 {
          log := log + [Repeating];
        }
        repeatCount := repeatCount + 1;
      } else {
        CheckRepeatEnd();
        lastLine := line;
        repeatCount := 1;
        log := log + [Line(line)];
      }
    }

    /** strchr for a newline, from `from` up to the terminating NUL at `end`. */
    method FindEol(from: nat, end: nat) returns (found: bool, eol: nat)
      requires from <= end < buffer.Length && buffer[end] == 0 && NulFree(buffer[from..end])
      ensures found ==> from <= eol < end && buffer[eol] == NEWLINE && OneLine(buffer[from..eol])
      ensures !found ==> OneLine(buffer[from..end])
    {
      var i := from;
      assert forall k :: from <= k < end ==> buffer[k] == buffer[from..end][k - from];
      while buffer[i] != 0
        invariant from <= i <= end
        invariant forall k :: from <= k < i ==> buffer[k] != NEWLINE
        decreases end - i
      {
        if buffer[i] == NEWLINE {
          return true, i;
        }
        i := i + 1;
      }
      return false, i;
    }

    /** The body of the line loop: the line that ends at `eol` is logged, the next one is sought. */
    method TakeLine(at: nat, eol: nat, end: nat) returns (found: bool, next: nat)
      requires at <= eol < end < buffer.Length && buffer[end] == 0 && NulFree(buffer[eol + 1..end])
      modifies this`log, this`lastLine, this`repeatCount, buffer
      ensures var (c, more) := CompressPiece(old(Counter()), Full(old(buffer[at..eol])));
              Counter() == c && log == old(log) + more
      ensures buffer[end] == 0 && buffer[eol + 1..end] == old(buffer[eol + 1..end])
      ensures found ==> eol < next < end && buffer[next] == NEWLINE && OneLine(buffer[eol + 1..next])
      ensures !found ==> OneLine(buffer[eol + 1..end])
    {
      hide NulFree, CompressPiece;
      ghost var line, rest := buffer[at..eol], buffer[eol + 1..end];
      buffer[eol] := 0;
      assert buffer[at..eol] == line && buffer[eol + 1..end] == rest;
      LogLine(buffer[at..eol]);
      found, next := FindEol(eol + 1, end);
    }

    /** The line loop: every complete line in buffer[..end] is logged; `at` is where the
      unfinished rest begins. */
    method LogLines(end: nat) returns (at: nat, ghost pieces: seq<Piece>, ghost emitted: seq<Entry>)
      requires end < BUFFER_SIZE == buffer.Length && buffer[end] == 0 && NulFree(buffer[..end])
      modifies this`log, this`lastLine, this`repeatCount, buffer
      ensures at <= end && buffer[at..end] == old(buffer[at..end]) && OneLine(buffer[at..end])
      ensures Logged(old(buffer[..end]), at, old(Counter()), pieces, Counter(), emitted)
      ensures log == old(log) + emitted
    {
      hide Logged, CompressPiece, NulFree, OneLine;
      at, pieces, emitted := 0, [], [];
      ghost var content, start, from := buffer[..end], Counter(), log;
      assert content[0..] == content == buffer[0..end];
      NothingLogged(content, start);
      var found, eol := FindEol(0, end);
      while found
        invariant at <= end && buffer[end] == 0 && buffer[at..end] == content[at..]
        invariant found ==> at <= eol < end && buffer[eol] == NEWLINE && OneLine(buffer[at..eol])
        invariant !found ==> OneLine(buffer[at..end])
        invariant Logged(content, at, start, pieces, Counter(), emitted) && log == from + emitted
        decreases end - at, found
      {
        SameSlice(buffer[..], content, at, eol, end);
        AddLine(content, at, eol, start, pieces, Counter(), emitted);
        pieces := pieces + [Full(content[at..eol])];
        emitted := emitted + CompressPiece(Counter(), Full(content[at..eol])).1;
        var next;
        found, next := TakeLine(at, eol, end);
        at, eol := eol + 1, next;
      }
    }

    /** The lines up to `at` have been logged. */
    ghost predicate Logged(content: Text, at: nat, start: Compressor, pieces: seq<Piece>,
                           counter: Compressor, emitted: seq<Entry>) {
      at <= |content| && Split([], content[..at]) == ([], pieces) && Compress(start, pieces) == (counter, emitted)
    }

    lemma NothingLogged(content: Text, start: Compressor)
      ensures Logged(content, 0, start, [], start, [])
    {
      assert content[..0] == [];
    }

    lemma AddLine(content: Text, at: nat, eol: nat, start: Compressor, pieces: seq<Piece>,
                  counter: Compressor, emitted: seq<Entry>)
      requires at <= eol < |content| < BUFFER_SIZE && content[eol] == NEWLINE && OneLine(content[at..eol])
      requires Logged(content, at, start, pieces, counter, emitted)
      ensures var (c, more) := CompressPiece(counter, Full(content[at..eol]));
              Logged(content, eol + 1, start, pieces + [Full(content[at..eol])], c, emitted + more)
    {
      SplitLine(content[at..eol]);
      SplitChunks([], content[..at], content[at..eol] + [NEWLINE]);
      assert content[..at] + (content[at..eol] + [NEWLINE]) == content[..eol + 1];
      CompressOneMore(start, pieces, Full(content[at..eol]));
    }

    /** The unfinished rest is logged as cut if it fills the buffer, or moved to the front. */
    method KeepRest(at: nat, end: nat)
      requires at <= end < BUFFER_SIZE == buffer.Length && OneLine(buffer[at..end]) && NulFree(buffer[at..end])
      modifies this`fill, this`log, buffer
      ensures Valid()
      ensures Absorbed([], Counter(), old(log), old(buffer[at..end]), buffer[..fill], Counter(), log)
    {
      ghost var tail := buffer[at..end];
      SplitPlain(tail);
      var left := end - at;
      if left == BUFFER_SIZE - 1 {
        log := log + [Truncated(buffer[at..end])];
        left := 0;
        Compress1(Counter(), Cut(tail));
      } else {
        forall k | 0 <= k < left {
          buffer[k] := buffer[at + k];
        }
        assert buffer[..left] == tail;
        assert log + [] == log;
      }
      fill := left;
    }

    /** One successful read: complete lines are logged, the rest is kept. */
    method Consume(bytes: Text)
      requires Valid() && bytes != [] && fill + |bytes| < BUFFER_SIZE && NulFree(bytes)
      modifies this`fill, this`log, this`lastLine, this`repeatCount, buffer
      ensures Valid()
      ensures Absorbed(old(buffer[..fill]), old(Counter()), old(log), bytes, buffer[..fill], Counter(), log)
    {
      ghost var rest, counter, before := buffer[..fill], Counter(), log;
      var end := fill + |bytes|;
      forall k | 0 <= k < |bytes| {
        buffer[fill + k] := bytes[k];
      }
      buffer[end] := 0;
      ghost var content := rest + bytes;
      ghost var whole := buffer[..];
      assert whole[..end] == buffer[..end] == content;
      var at, pieces, emitted := LogLines(end);
      ghost var tail, counter1, log1 := content[at..], Counter(), log;
      assert whole[..at] == content[..at] && buffer[at..end] == whole[at..end] == tail;
      assert content[..at] + tail == content;
      KeepRest(at, end);
      assert Absorbed([], counter, before, content[..at], [], counter1, log1);
      AbsorbedMore([], counter, before, content[..at], [], counter1, log1, tail, buffer[..fill], Counter(), log);
      AbsorbedRest(rest, counter, before, bytes, buffer[..fill], Counter(), log);
    }

    /** loader_read_child_output: reads until a read returns less than asked for. */
    method ReadChildOutput(pipe: Pipe) returns (ghost got: Text)
      requires Valid() && NulFree(pipe.data)
      modifies this`fill, this`log, this`lastLine, this`repeatCount, buffer, pipe
      ensures Valid() && old(pipe.data) == got + pipe.data
      ensures Absorbed(old(buffer[..fill]), old(Counter()), old(log), got, buffer[..fill], Counter(), log)
    {
      got := [];
      AbsorbedNothing(buffer[..fill], Counter(), log);
      var more := true;
      while more
        invariant Valid() && NulFree(pipe.data) && old(pipe.data) == got + pipe.data
        invariant Absorbed(old(buffer[..fill]), old(Counter()), old(log), got, buffer[..fill], Counter(), log)
        decreases |pipe.data|, more
      {
        ghost var rest, counter, before := buffer[..fill], Counter(), log;
        var maxRead := BUFFER_SIZE - 1 - fill;
        var ret, bytes := pipe.Read(maxRead);
        NulFreeParts(bytes, pipe.data);
        if ret > 0 {
          Consume(bytes);
          AbsorbedMore(old(buffer[..fill]), old(Counter()), old(log), got, rest, counter, before,
                       bytes, buffer[..fill], Counter(), log);
          got := got + bytes;
        }
        more := ret == maxRead;
      }
    }
  }

  /** What an array holds where its end agrees with `content`. */
  lemma SameSlice(whole: Text, content: Text, at: nat, eol: nat, end: nat)
    requires at <= eol < end == |content| <= |whole| && whole[at..end] == content[at..] && NulFree(content)
    ensures whole[eol] == content[eol] && whole[at..eol] == content[at..eol]
    ensures whole[eol + 1..end] == content[eol + 1..] && NulFree(content[eol + 1..])
  {
    assert forall k :: at <= k < end ==> whole[k] == whole[at..end][k - at] == content[at..][k - at] == content[k];
  }

  lemma CompressOneMore(c: Compressor, ps: seq<Piece>, p: Piece)
    ensures var (d, log) := Compress(c, ps);
            var (e, more) := CompressPiece(d, p);
            Compress(c, ps + [p]) == (e, log + more)
  {
    assert (ps + [p])[..|ps|] == ps;
  }

  lemma NulFreeParts(a: Text, b: Text)
    ensures NulFree(a + b) <==> NulFree(a) && NulFree(b)
  {
    assert forall i :: 0 <= i < |a| ==> a[i] == (a + b)[i];
    assert forall i :: 0 <= i < |b| ==> b[i] == (a + b)[|a| + i];
  }

  /** From `(rest, c, log)`, the bytes `s` lead to `(rest', c', log')`. */
  ghost predicate Absorbed(rest: Text, c: Compressor, log: seq<Entry>, s: Text,
                           rest': Text, c': Compressor, log': seq<Entry>) {
    var (r, pieces) := Split(rest, s);
    var (d, more) := Compress(c, pieces);
    rest' == r && c' == d && log' == log + more
  }

  lemma AbsorbedNothing(rest: Text, c: Compressor, log: seq<Entry>)
    ensures Absorbed(rest, c, log, [], rest, c, log)
  {
    assert log + [] == log;
  }

  /** An unfinished line in the buffer counts as if it had just been read. */
  lemma AbsorbedRest(rest: Text, c: Compressor, log: seq<Entry>, s: Text,
                     rest': Text, c': Compressor, log': seq<Entry>)
    requires OneLine(rest) && |rest| < BUFFER_SIZE - 1 && Absorbed([], c, log, rest + s, rest', c', log')
    ensures Absorbed(rest, c, log, s, rest', c', log')
  {
    SplitPlain(rest);
    SplitChunks([], rest, s);
    assert [] + Split(rest, s).1 == Split(rest, s).1;
  }

  lemma AbsorbedMore(rest: Text, c: Compressor, log: seq<Entry>, s: Text,
                     rest1: Text, c1: Compressor, log1: seq<Entry>, t: Text,
                     rest2: Text, c2: Compressor, log2: seq<Entry>)
    requires Absorbed(rest, c, log, s, rest1, c1, log1) && Absorbed(rest1, c1, log1, t, rest2, c2, log2)
    ensures Absorbed(rest, c, log, s + t, rest2, c2, log2)
  {
    hide Split, Compress;
    SplitChunks(rest, s, t);
    CompressAppend(c, Split(rest, s).1, Split(rest1, t).1);
  }

  /** A child from its first byte to its burial: the log gives back every line and every cut piece
    that was read. What is lost is the unfinished last line, and whatever a dead child has written
    but nobody has read. */
  lemma BuriedChild(read: Text, rest: Text, c: Compressor, log: seq<Entry>)
    requires Absorbed([], Compressor([], 0), [], read, rest, c, log)
    ensures var pieces := Split([], read).1;
            && Concat(pieces) + rest == read
            && Expand(log + RepeatEnd(c.count)) == Lines(pieces)
            && CutsOf(log + RepeatEnd(c.count)) == Cuts(pieces)
  {
    hide Split, Concat, Expand, Lines, CutsOf, Cuts, Compress;
    var pieces := Split([], read).1;
    SplitConserves([], read);
    CompressionIsLossless(pieces);
    var logged := Compress(Compressor([], 0), pieces).1;
    assert [] + logged == logged;
    assert [] + read == read;
  }
}

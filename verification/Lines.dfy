/** Splitting output into non-blank lines: taskexecutor/utils.go. */
module Lines {
  import opened Triggers

  const NEWLINE: byte := 0x0a

  predicate IsBlankByte(b: byte) {
    b == 0x20 || b == 0x09 || b == 0x0d
  }

  predicate Blank(data: Bytes) {
    forall i | 0 <= i < |data| :: IsBlankByte(data[i])
  }

  /** n is the position of the first newline, or |data| if there is none. */
  ghost predicate IsLineEnd(data: Bytes, n: nat) {
    n <= |data| && (n < |data| ==> data[n] == NEWLINE) && forall j | 0 <= j < n :: data[j] != NEWLINE
  }

  function LineEnd(data: Bytes): (n: nat)
    ensures IsLineEnd(data, n)
  {
    LineEndFrom(data, 0)
  }

  function LineEndFrom(data: Bytes, i: nat): (n: nat)
    requires i <= |data|
    ensures i <= n <= |data| && (n < |data| ==> data[n] == NEWLINE) && forall j | i <= j < n :: data[j] != NEWLINE
    decreases |data| - i
  {
    if i == |data| || data[i] == NEWLINE then i else LineEndFrom(data, i + 1)
  }

  /** Reference definition: the newline-terminated segments that are not blank, in order. */
  function LinesOf(data: Bytes): seq<Bytes> {
    var n := LineEnd(data);
    if n == |data| then []
    else if Blank(data[..n]) then LinesOf(data[n + 1..])
    else [data[..n]] + LinesOf(data[n + 1..])
  }

  /** Reference definition: what follows the last of those segments; everything, if there is none. */
  function Tail(data: Bytes): Bytes {
    if LinesOf(data) == [] then data else Tail(data[LineEnd(data) + 1..])
  }

  function Collapse(tail: Bytes): Bytes {
    if Blank(tail) then [] else tail
  }

  lemma FirstNewline(data: Bytes, n: nat)
    requires IsLineEnd(data, n)
    ensures LineEnd(data) == n
  {
  }

  lemma AtNewline(data: Bytes, n: nat, segment: Bytes, rest: Bytes)
    requires n == LineEnd(data) < |data| && segment == data[..n] && rest == data[n + 1..]
    ensures LinesOf(data) == if Blank(segment) then LinesOf(rest) else [segment] + LinesOf(rest)
    ensures Tail(data) == if LinesOf(data) == [] then data else Tail(rest)
  {
    LinesAtNewline(data);
    TailAtNewline(data);
  }

  lemma LinesAtNewline(data: Bytes)
    requires LineEnd(data) < |data|
    ensures var n := LineEnd(data);
            LinesOf(data) == if Blank(data[..n]) then LinesOf(data[n + 1..]) else [data[..n]] + LinesOf(data[n + 1..])
  {
  }

  lemma TailAtNewline(data: Bytes)
    requires LineEnd(data) < |data|
    ensures Tail(data) == if LinesOf(data) == [] then data else Tail(data[LineEnd(data) + 1..])
  {
  }

  lemma BlankWithOneMore(data: Bytes, b: byte)
    ensures Blank(data + [b]) <==> Blank(data) && IsBlankByte(b)
  {
    assert (data + [b])[|data|] == b;
    assert forall j | 0 <= j < |data| :: data[j] == (data + [b])[j];
  }

  /** The scanner stands at i, in a segment that began at `start`. */
  ghost predicate InSegment(data: Bytes, isEmptyLine: bool, start: int, i: int) {
    && 0 <= start <= i <= |data|
    && isEmptyLine == Blank(data[start..i])
    && forall j | start <= j < i :: data[j] != NEWLINE
  }

  /**
   The lines, and the length of the tail, that a scan finds going on from `start`, if the last of `lines` ended at
   `stop`.
   */
  ghost function Found(data: Bytes, lines: seq<Bytes>, start: int, stop: int): (seq<Bytes>, int)
    requires -1 <= stop < start <= |data|
  {
    var rest := data[start..];
    (lines + LinesOf(rest), if LinesOf(rest) == [] then |data| - stop - 1 else |Tail(rest)|)
  }

  method GetLines(data: Bytes) returns (lines: seq<Bytes>, remaining: Bytes)
    ensures lines == LinesOf(data)
    ensures remaining == Collapse(Tail(data))
  {
    lines := [];
    var isEmptyLine := true;
    var startIndex := 0;
    var stopIndex := -1;
    ghost var found := Found(data, [], 0, -1);
    for i := 0 to |data|
      invariant -1 <= stopIndex < startIndex <= i
      invariant InSegment(data, isEmptyLine, startIndex, i)
      invariant Found(data, lines, startIndex, stopIndex) == found
    {
      if data[i] == NEWLINE {
        FoundAtNewline(data, lines, isEmptyLine, startIndex, stopIndex, i);
        if !isEmptyLine {
          stopIndex := i;
          lines := lines + [data[startIndex..i]];
        }
        startIndex := i + 1;
        isEmptyLine := true;
        continue;
      }
      StaysInSegment(data, isEmptyLine, startIndex, i);
      if !IsBlankByte(data[i]) && isEmptyLine {
        isEmptyLine := false;
      }
    }
    FoundAtEnd(data, lines, isEmptyLine, startIndex, stopIndex);
    remaining := Remaining(data, stopIndex);
    FoundFromStart(data);
  }

  lemma FoundFromStart(data: Bytes)
    ensures Found(data, [], 0, -1) == (LinesOf(data), |Tail(data)|)
    ensures |Tail(data)| <= |data| && Tail(data) == data[|data| - |Tail(data)|..]
  {
    var before := TailIsLineless(data);
    assert data[0..] == data && [] + LinesOf(data) == LinesOf(data);
  }

  lemma StaysInSegment(data: Bytes, isEmptyLine: bool, start: int, i: int)
    requires InSegment(data, isEmptyLine, start, i) && i < |data| && data[i] != NEWLINE
    ensures InSegment(data, isEmptyLine && IsBlankByte(data[i]), start, i + 1)
  {
    assert data[start..i + 1] == data[start..i] + [data[i]];
    BlankWithOneMore(data[start..i], data[i]);
  }

  lemma FoundAtNewline(data: Bytes, lines: seq<Bytes>, isEmptyLine: bool, start: int, stop: int, i: int)
    requires InSegment(data, isEmptyLine, start, i) && -1 <= stop < start && i < |data| && data[i] == NEWLINE
    ensures Found(data, lines, start, stop)
            == if isEmptyLine then Found(data, lines, i + 1, stop) else Found(data, lines + [data[start..i]], i + 1, i)
  {
    var here, n, segment, rest := data[start..], i - start, data[start..i], data[i + 1..];
    FirstNewline(here, n);
    AtNewline(here, n, segment, rest);
    if !isEmptyLine {
      LinesAssociate(lines, [segment], LinesOf(rest));
    }
  }

  lemma FoundAtEnd(data: Bytes, lines: seq<Bytes>, isEmptyLine: bool, start: int, stop: int)
    requires InSegment(data, isEmptyLine, start, |data|) && -1 <= stop < start
    ensures stop < |data| && Found(data, lines, start, stop) == (lines, |data| - stop - 1)
  {
    FirstNewline(data[start..], |data| - start);
    assert lines + [] == lines;
  }

  method Remaining(data: Bytes, stopIndex: int) returns (remaining: Bytes)
    requires -1 <= stopIndex < |data|
    ensures remaining == Collapse(data[stopIndex + 1..])
  {
    if stopIndex + 1 >= |data| {
      remaining := [];
    } else {
      remaining := data[stopIndex + 1..];
      var isEmpty := true;
      for i := 0 to |remaining|
        invariant isEmpty && forall j | 0 <= j < i :: IsBlankByte(remaining[j])
      {
        if remaining[i] != 0x20 && remaining[i] != 0x09 && remaining[i] != 0x0d {
          isEmpty := false;
          break;
        }
      }
      if isEmpty {
        remaining := [];
      }
    }
  }

  lemma LinesAssociate(a: seq<Bytes>, b: seq<Bytes>, c: seq<Bytes>)
    ensures a + (b + c) == a + b + c
  {
  }

  // ---- The reference definitions are what they should be ----

  lemma {:induction false} LinesAreNonBlank(data: Bytes)
    ensures forall line | line in LinesOf(data) :: !Blank(line) && NEWLINE !in line
  {
    var n := LineEnd(data);
    if n < |data| {
      LinesAreNonBlank(data[n + 1..]);
    }
  }

  /** The tail is a suffix that holds no line; it starts after a newline, unless the input holds no line at all. */
  lemma {:induction false} TailIsLineless(data: Bytes) returns (before: Bytes)
    ensures data == before + Tail(data) && LinesOf(Tail(data)) == []
    ensures if LinesOf(data) == [] then before == [] else before != [] && before[|before| - 1] == NEWLINE
  {
    if LinesOf(data) == [] {
      before := [];
    } else {
      var n := LineEnd(data);
      var segment, rest := data[..n], data[n + 1..];
      AtNewline(data, n, segment, rest);
      CutAt(data, n);
      var more := TailIsLineless(rest);
      before := segment + ([NEWLINE] + more);
      Regroup(segment, [NEWLINE], more, Tail(rest));
    }
  }

  lemma Regroup(a: Bytes, b: Bytes, c: Bytes, d: Bytes)
    ensures a + (b + (c + d)) == a + (b + c) + d
  {
  }

  lemma CutAt(data: Bytes, n: nat)
    requires n < |data| && data[n] == NEWLINE
    ensures data == data[..n] + ([NEWLINE] + data[n + 1..])
  {
  }

  /**
   An input: "x\r\n", " \t\r\n" and "\f\n" are two lines: blanks are spaces, tabs and carriage returns, and those in a
   line stay.
   */
  lemma BlanksInLines()
    ensures LinesOf([0x78, 0x0d, NEWLINE, 0x20, 0x09, 0x0d, NEWLINE, 0x0c, NEWLINE]) == [[0x78, 0x0d], [0x0c]]
  {
    var data := [0x78, 0x0d, NEWLINE, 0x20, 0x09, 0x0d, NEWLINE, 0x0c, NEWLINE];
    var second, third := data[3..], data[7..];
    FirstNewline(data, 2);
    FirstNewline(second, 3);
    FirstNewline(third, 1);
    AtNewline(data, 2, [0x78, 0x0d], second);
    AtNewline(second, 3, [0x20, 0x09, 0x0d], third);
    AtNewline(third, 1, [0x0c], []);
    assert !IsBlankByte([0x78, 0x0d][0]) && !IsBlankByte([0x0c][0]);
  }

  // ---- No byte of content is lost, duplicated or moved ----

  /** The bytes of data that are neither blank nor newlines. */
  function ContentOf(data: Bytes): Bytes {
    if data == [] then []
    else (if IsBlankByte(data[0]) || data[0] == NEWLINE then [] else [data[0]]) + ContentOf(data[1..])
  }

  function ContentOfLines(lines: seq<Bytes>): Bytes {
    if |lines| == 0 then [] else ContentOf(lines[0]) + ContentOfLines(lines[1..])
  }

  lemma {:induction false} ContentJoins(a: Bytes, b: Bytes)
    ensures ContentOf(a + b) == ContentOf(a) + ContentOf(b)
  {
    if a == [] {
      assert a + b == b;
    } else {
      assert (a + b)[1..] == a[1..] + b;
      ContentJoins(a[1..], b);
    }
  }

  lemma {:induction false} BlankHasNoContent(data: Bytes)
    requires Blank(data)
    ensures ContentOf(data) == []
  {
    if data != [] {
      BlankHasNoContent(data[1..]);
    }
  }

  lemma ContentOfFirstLine(line: Bytes, rest: seq<Bytes>)
    ensures ContentOfLines([line] + rest) == ContentOf(line) + ContentOfLines(rest)
  {
  }

  lemma ContentOfSegment(segment: Bytes, rest: Bytes)
    ensures ContentOf(segment + ([NEWLINE] + rest)) == ContentOf(segment) + ContentOf(rest)
  {
    ContentJoins(segment, [NEWLINE] + rest);
    assert ([NEWLINE] + rest)[1..] == rest;
  }

  lemma {:induction false} KeepsContent(data: Bytes)
    ensures ContentOfLines(LinesOf(data)) + ContentOf(Tail(data)) == ContentOf(data)
  {
    if LinesOf(data) != [] {
      var n := LineEnd(data);
      var segment, rest := data[..n], data[n + 1..];
      AtNewline(data, n, segment, rest);
      CutAt(data, n);
      ContentOfSegment(segment, rest);
      KeepsContent(rest);
      SegmentKeepsContent(segment, LinesOf(rest), ContentOf(Tail(rest)), ContentOf(rest));
    }
  }

  lemma SegmentKeepsContent(segment: Bytes, lines: seq<Bytes>, tail: Bytes, rest: Bytes)
    requires ContentOfLines(lines) + tail == rest
    ensures ContentOfLines(if Blank(segment) then lines else [segment] + lines) + tail == ContentOf(segment) + rest
  {
    if Blank(segment) {
      BlankHasNoContent(segment);
      assert [] + rest == rest;
    } else {
      ContentOfFirstLine(segment, lines);
      assert (ContentOf(segment) + ContentOfLines(lines)) + tail == ContentOf(segment) + (ContentOfLines(lines) + tail);
    }
  }

  /** The lines and the remainder together hold the content of the input, in order. */
  lemma NothingLost(data: Bytes)
    ensures ContentOfLines(LinesOf(data)) + ContentOf(Collapse(Tail(data))) == ContentOf(data)
  {
    KeepsContent(data);
    if Blank(Tail(data)) {
      BlankHasNoContent(Tail(data));
    }
  }

  // ---- Streaming: scanning in two steps ----

  lemma SegmentPrefix(a: Bytes, b: Bytes, n: nat)
    requires n == LineEnd(a) < |a|
    ensures LineEnd(a + b) == n && (a + b)[..n] == a[..n] && (a + b)[n + 1..] == a[n + 1..] + b
  {
    FirstNewline(a + b, n);
  }

  /** Keeping the whole tail makes two scans equal to one, whatever the inputs. */
  lemma {:induction false} TailResumes(a: Bytes, b: Bytes)
    ensures LinesOf(a + b) == LinesOf(a) + LinesOf(Tail(a) + b)
    ensures Tail(a + b) == Tail(Tail(a) + b)
  {
    if LinesOf(a) != [] {
      var n := LineEnd(a);
      var segment, rest := a[..n], a[n + 1..];
      SegmentPrefix(a, b, n);
      AtNewline(a, n, segment, rest);
      AtNewline(a + b, n, segment, rest + b);
      TailResumes(rest, b);
      LinesAssociate([segment], LinesOf(rest), LinesOf(Tail(a) + b));
    }
  }

  // ---- Streaming with the remainder the code keeps ----

  /** Scanning a + b at once gives what scanning a, then its remainder followed by b, gives. */
  predicate Streams(a: Bytes, b: Bytes) {
    var r := Collapse(Tail(a));
    && LinesOf(a + b) == LinesOf(a) + LinesOf(r + b)
    && Collapse(Tail(a + b)) == Collapse(Tail(r + b))
  }

  lemma IndentSegment(t: Bytes, b: Bytes, n: nat)
    requires Blank(t) && n == LineEnd(b)
    ensures LineEnd(t + b) == |t| + n && (t + b)[..|t| + n] == t + b[..n]
    ensures Blank(t + b[..n]) <==> Blank(b[..n])
    ensures n < |b| ==> (t + b)[|t| + n + 1..] == b[n + 1..]
  {
    assert (t + b)[..|t| + n] == t + b[..n];
    FirstNewline(t + b, |t| + n);
    assert (t + b[..n])[|t|..] == b[..n];
  }

  /** Blank indentation t in front of b reaches the first line of b only, or the tail if b has no line. */
  lemma IndentLines(t: Bytes, b: Bytes, n: nat)
    requires Blank(t) && n == LineEnd(b)
    ensures LinesOf(t + b)
            == if n == |b| then []
               else (if Blank(b[..n]) then [] else [t + b[..n]]) + LinesOf(b[n + 1..])
    ensures Tail(t + b) == if LinesOf(b) == [] then t + b else Tail(b)
  {
    IndentSegment(t, b, n);
    if n < |b| {
      AtNewline(b, n, b[..n], b[n + 1..]);
      AtNewline(t + b, |t| + n, t + b[..n], b[n + 1..]);
    }
  }

  lemma BlankHasNoLine(b: Bytes)
    requires Blank(b)
    ensures LinesOf(b) == []
  {
  }

  /** Blank indentation is harmless exactly if no content follows, or a blank segment comes before the first line. */
  lemma IndentChanges(t: Bytes, b: Bytes)
    requires Blank(t) && t != []
    ensures LinesOf(t + b) == LinesOf(b) && Collapse(Tail(t + b)) == Collapse(Tail(b))
            <==> Blank(b) || (LinesOf(b) != [] && Blank(b[..LineEnd(b)]))
  {
    var n := LineEnd(b);
    IndentLines(t, b, n);
    if Blank(b) {
      BlankHasNoLine(b);
    } else if LinesOf(b) == [] {
      var i :| 0 <= i < |b| && !IsBlankByte(b[i]);
      assert (t + b)[|t| + i] == b[i];
    } else if !Blank(b[..n]) {
      assert LinesOf(t + b)[0] == t + b[..n] && LinesOf(b)[0] == b[..n];
    }
  }

  lemma CancelPrefix(p: seq<Bytes>, x: seq<Bytes>, y: seq<Bytes>)
    ensures p + x == p + y <==> x == y
  {
    assert x == (p + x)[|p|..] && y == (p + y)[|p|..];
  }

  /**
   The law of streaming, exactly: collapsing a blank tail changes the result unless what follows is
   blank too, or has a blank segment before its first line.
   */
  lemma StreamingLaw(a: Bytes, b: Bytes)
    ensures Streams(a, b)
            <==> || Tail(a) == []
                 || !Blank(Tail(a))
                 || Blank(b)
                 || (LinesOf(b) != [] && Blank(b[..LineEnd(b)]))
  {
    var t := Tail(a);
    TailResumes(a, b);
    if t != [] && Blank(t) {
      assert [] + b == b;
      IndentChanges(t, b);
      CancelPrefix(LinesOf(a), LinesOf(t + b), LinesOf(b));
    }
  }

  /** Collapsing does change results: "x\n " then "y\n" loses the space in front of y. */
  lemma CollapseLosesIndent()
    ensures !Streams([0x78, NEWLINE, 0x20], [0x79, NEWLINE])
  {
    var a, b := [0x78, NEWLINE, 0x20], [0x79, NEWLINE];
    FirstNewline(a, 1);
    FirstNewline(b, 1);
    assert a[..1] == [0x78] && a[2..] == [0x20] && b[..1] == [0x79];
    BlankHasNoLine([0x20]);
    assert Tail(a) == [0x20];
    StreamingLaw(a, b);
  }
}

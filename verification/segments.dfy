/** The output files of the command-line driver (video2bas.go). Each
    "line" here is one element of `basLines`: the whole script of one frame
    (`GenerateAllBasText` returns one multi-line string per frame), written
    followed by one newline. The frames go to numbered files, a new file
    being started whenever the next frame's script would take the open one
    past the size limit, so a file ends only between frames. */
module Segments {
  import opened Wrappers
  import opened Text

  /** One output file: its name and the lines written to it, each followed by
      a newline. */
  datatype Segment = Segment(name: string, lines: seq<string>)

  /** The bytes a line takes in a file: the line and its newline. */
  function LineSize(line: string): nat
  {
    |line| + 1
  }

  /** The size of a file holding `lines`. */
  function Size(lines: seq<string>): nat
  {
    if |lines| == 0 then 0 else Size(lines[..|lines| - 1]) + LineSize(lines[|lines| - 1])
  }

  /** The name of file number `fileId`. */
  function SegmentName(outputPath: string, fileId: nat): string
  {
    outputPath + "_" + IntToString(fileId) + ".bas"
  }

  /** The lines of all files, in file order. */
  function AllLines(segs: seq<Segment>): seq<string>
  {
    if |segs| == 0 then [] else segs[0].lines + AllLines(segs[1..])
  }

  lemma {:induction false} AllLinesAppend(segs: seq<Segment>, last: Segment)
    ensures AllLines(segs + [last]) == AllLines(segs) + last.lines
    decreases |segs|
  {
    if |segs| == 0 {
      assert AllLines([last]) == last.lines + AllLines([]);
    } else {
      AllLinesAppend(segs[1..], last);
      assert (segs + [last])[1..] == segs[1..] + [last];
    }
  }

  /** The text written to a file. */
  function FileText(lines: seq<string>): string
  {
    if |lines| == 0 then "" else FileText(lines[..|lines| - 1]) + lines[|lines| - 1] + "\n"
  }

  /** The size the writer keeps count of is the length of the text written. */
  lemma {:induction false} FileTextSize(lines: seq<string>)
    ensures |FileText(lines)| == Size(lines)
  {
    if |lines| > 0 {
      FileTextSize(lines[..|lines| - 1]);
    }
  }

  /** The greedy filling rule, whatever the files are called: no file is
      empty, a file with two or more lines stays within the limit, and every
      file but the last is full, the next file's first line not fitting. */
  ghost predicate Greedy(segs: seq<Segment>, maxFileSize: int)
  {
    && (forall k | 0 <= k < |segs| :: |segs[k].lines| > 0)
    && (forall k | 0 <= k < |segs| :: |segs[k].lines| >= 2 ==> Size(segs[k].lines) <= maxFileSize)
    && (forall k, l | 0 <= k < l < |segs| && l == k + 1 :: Size(segs[k].lines) + LineSize(segs[l].lines[0]) > maxFileSize)
  }

  /** A file as the run of input lines it holds, `lines[start..end]`. */
  datatype Span = Span(start: nat, end: nat)

  /** The segmenting loop's variables: the files closed so far and the open
      one, each as the run of lines written to it, the bytes written to the
      open file, and the next file number. */
  datatype Writer = Writer(closed: seq<Span>, current: Option<Span>, currentFileSize: int, fileId: nat)

  /** The size of the file holding `lines[start..end]`, counted line by line
      as the loop does. */
  function RunSize(lines: seq<string>, start: nat, end: nat): nat
    requires start <= end <= |lines|
    decreases end
  {
    if end == start then 0 else RunSize(lines, start, end - 1) + LineSize(lines[end - 1])
  }

  /** Closing the open file, if any, and creating the next one, empty, at
      line `i`. */
  function Open(w: Writer, i: nat): Writer
  {
    Writer(if w.current.Some? then w.closed + [w.current.value] else w.closed, Some(Span(i, i)), 0, w.fileId + 1)
  }

  /** Writing `line` and its newline to the open file. */
  function Append(w: Writer, line: string): Writer
    requires w.current.Some?
  {
    Writer(w.closed, Some(w.current.value.(end := w.current.value.end + 1)), w.currentFileSize + LineSize(line), w.fileId)
  }

  /** One turn of the segmenting loop of `generateBasToFile`, for line `i`:
      if no file is open, or the line and its newline would take the open
      file past `maxFileSize`, the next file is opened; then the line is
      written. */
  function Step(lines: seq<string>, i: nat, w: Writer, maxFileSize: int): Writer
    requires i < |lines|
  {
    if w.current.None? || w.currentFileSize + LineSize(lines[i]) > maxFileSize then
      Append(Open(w, i), lines[i])
    else
      Append(w, lines[i])
  }

  /** A file that was closed: it holds at least one line, it stays within the
      limit if it holds two or more, and the line after it did not fit. */
  ghost predicate Full(lines: seq<string>, s: Span, maxFileSize: int)
  {
    && s.start < s.end < |lines|
    && (s.end - s.start >= 2 ==> RunSize(lines, s.start, s.end) <= maxFileSize)
    && RunSize(lines, s.start, s.end) + LineSize(lines[s.end]) > maxFileSize
  }

  /** Runs that follow one another without gap from line 0 up to line
      `upTo`. */
  ghost predicate Contiguous(spans: seq<Span>, upTo: nat)
  {
    && (|spans| == 0 ==> upTo == 0)
    && (|spans| > 0 ==> spans[0].start == 0 && spans[|spans| - 1].end == upTo)
    && (forall k, l | 0 <= k < l < |spans| && l == k + 1 :: spans[k].end == spans[l].start)
  }

  /** What the segmenting loop knows after `i` lines: the closed files are
      full and cover the lines before the open file, which holds the rest
      of the first `i` lines and whose size is counted exactly. */
  ghost predicate Writing(lines: seq<string>, i: nat, w: Writer, maxFileSize: int)
  {
    match w.current
    case None => i == 0 && w.closed == [] && w.fileId == 0
    case Some(cur) =>
      && cur.start < cur.end == i <= |lines|
      && w.fileId == |w.closed| + 1
      && w.currentFileSize == RunSize(lines, cur.start, i)
      && (i - cur.start >= 2 ==> w.currentFileSize <= maxFileSize)
      && Contiguous(w.closed, cur.start)
      && (forall k | 0 <= k < |w.closed| :: Full(lines, w.closed[k], maxFileSize))
  }

  /** The files at the end: nonempty runs without gap covering all the
      lines, the last within the limit if it holds two or more lines, every
      other full. */
  ghost predicate Tiling(lines: seq<string>, spans: seq<Span>, maxFileSize: int)
  {
    && Contiguous(spans, |lines|)
    && (forall k | 0 <= k < |spans| :: spans[k].start < spans[k].end <= |lines|)
    && (forall k | 0 <= k < |spans| - 1 :: Full(lines, spans[k], maxFileSize))
    && (|spans| > 0 ==> var last := spans[|spans| - 1];
          last.end - last.start >= 2 ==> RunSize(lines, last.start, last.end) <= maxFileSize)
  }

  /** The files named from 0 holding their runs of lines. */
  function Files(lines: seq<string>, spans: seq<Span>, outputPath: string): (segs: seq<Segment>)
    requires forall k | 0 <= k < |spans| :: spans[k].start <= spans[k].end <= |lines|
    ensures |segs| == |spans|
    ensures forall k | 0 <= k < |spans| ::
      segs[k] == Segment(SegmentName(outputPath, k), lines[spans[k].start..spans[k].end])
  {
    seq(|spans|, k requires 0 <= k < |spans| => Segment(SegmentName(outputPath, k), lines[spans[k].start..spans[k].end]))
  }

  /** `generateBasToFile` without the file system: the files it creates, in
      order, and the lines written to each. A file is opened for the first
      line and whenever the next line would take the open file past
      `maxFileSize`; so a single line longer than the limit gets a file of
      its own, and no files are made for no lines. The files hold the lines
      in order, numbered from 0, and every file is as full as the rule lets
      it be. */
  method SplitIntoFiles(lines: seq<string>, maxFileSize: int, outputPath: string) returns (segs: seq<Segment>)
    ensures AllLines(segs) == lines
    ensures |lines| == 0 <==> |segs| == 0
    ensures forall k | 0 <= k < |segs| :: segs[k].name == SegmentName(outputPath, k)
    ensures forall k | 0 <= k < |segs| :: |segs[k].lines| > 0
    ensures forall k | 0 <= k < |segs| :: |segs[k].lines| >= 2 ==> Size(segs[k].lines) <= maxFileSize
    ensures forall k, l | 0 <= k < l < |segs| && l == k + 1 :: Size(segs[k].lines) + LineSize(segs[l].lines[0]) > maxFileSize
  {
    var w := Writer([], None, 0, 0);
    var i := 0;
    while i < |lines|
      invariant Writing(lines, i, w, maxFileSize)
    {
      w := WriteOne(lines, i, w, maxFileSize);
      i := i + 1;
    }
    FinishWriting(lines, w, maxFileSize, outputPath);
    segs := Files(lines, Spans(w), outputPath);
  }

  /** The body of the segmenting loop: one more line written, the loop's
      knowledge kept. */
  method WriteOne(lines: seq<string>, i: nat, w: Writer, maxFileSize: int) returns (next: Writer)
    requires i < |lines|
    requires Writing(lines, i, w, maxFileSize)
    ensures Writing(lines, i + 1, next, maxFileSize)
  {
    StepWrites(lines, i, w, maxFileSize);
    next := Step(lines, i, w, maxFileSize);
  }

  /** The runs of all the files, the open one last. */
  function Spans(w: Writer): seq<Span>
  {
    if w.current.Some? then w.closed + [w.current.value] else w.closed
  }

  /** One turn of the loop keeps `Writing`. */
  lemma StepWrites(lines: seq<string>, i: nat, w: Writer, maxFileSize: int)
    requires i < |lines|
    requires Writing(lines, i, w, maxFileSize)
    ensures Writing(lines, i + 1, Step(lines, i, w, maxFileSize), maxFileSize)
  {
    if w.current.Some? && w.currentFileSize + LineSize(lines[i]) > maxFileSize {
      CloseFull(lines, w.closed, w.current.value, maxFileSize);
    }
  }

  /** Closing a full file keeps the closed files full and without gap. */
  lemma CloseFull(lines: seq<string>, closed: seq<Span>, cur: Span, maxFileSize: int)
    requires Contiguous(closed, cur.start)
    requires forall k | 0 <= k < |closed| :: Full(lines, closed[k], maxFileSize)
    requires Full(lines, cur, maxFileSize)
    ensures Contiguous(closed + [cur], cur.end)
    ensures forall k | 0 <= k < |closed + [cur]| :: Full(lines, (closed + [cur])[k], maxFileSize)
  {
    var all := closed + [cur];
    forall k, l | 0 <= k < l < |all| && l == k + 1
      ensures all[k].end == all[l].start
    {
      assert all[k] == closed[k];
    }
  }

  /** After the last line, closing the open file leaves files that hold
      all the lines and follow the rule. */
  lemma FinishWriting(lines: seq<string>, w: Writer, maxFileSize: int, outputPath: string)
    requires Writing(lines, |lines|, w, maxFileSize)
    ensures forall k | 0 <= k < |Spans(w)| :: Spans(w)[k].start <= Spans(w)[k].end <= |lines|
    ensures var segs := Files(lines, Spans(w), outputPath);
      && AllLines(segs) == lines
      && (|lines| == 0 <==> |segs| == 0)
      && (forall k | 0 <= k < |segs| :: segs[k].name == SegmentName(outputPath, k))
      && (forall k | 0 <= k < |segs| :: |segs[k].lines| > 0)
      && (forall k | 0 <= k < |segs| :: |segs[k].lines| >= 2 ==> Size(segs[k].lines) <= maxFileSize)
      && (forall k, l | 0 <= k < l < |segs| && l == k + 1 :: Size(segs[k].lines) + LineSize(segs[l].lines[0]) > maxFileSize)
  {
    CloseLast(lines, w, maxFileSize);
    TilingFiles(lines, Spans(w), maxFileSize, outputPath);
  }

  /** After the last line, closing the open file leaves a tiling of all the
      lines. */
  lemma CloseLast(lines: seq<string>, w: Writer, maxFileSize: int)
    requires Writing(lines, |lines|, w, maxFileSize)
    ensures Tiling(lines, Spans(w), maxFileSize)
  {
    if w.current.Some? {
      var cur := w.current.value;
      var all := w.closed + [cur];
      forall k, l | 0 <= k < l < |all| && l == k + 1
        ensures all[k].end == all[l].start
      {
        assert all[k] == w.closed[k];
      }
      forall k | 0 <= k < |all|
        ensures all[k].start < all[k].end <= |lines|
      {
        if k < |w.closed| {
          assert all[k] == w.closed[k];
        }
      }
      forall k | 0 <= k < |all| - 1
        ensures Full(lines, all[k], maxFileSize)
      {
        assert all[k] == w.closed[k];
      }
    }
  }

  /** The files of a tiling hold all the lines and follow the rule. */
  lemma TilingFiles(lines: seq<string>, spans: seq<Span>, maxFileSize: int, outputPath: string)
    requires Tiling(lines, spans, maxFileSize)
    ensures var segs := Files(lines, spans, outputPath);
      && AllLines(segs) == lines
      && (|lines| == 0 <==> |segs| == 0)
      && (forall k | 0 <= k < |segs| :: |segs[k].lines| > 0)
      && (forall k | 0 <= k < |segs| :: |segs[k].lines| >= 2 ==> Size(segs[k].lines) <= maxFileSize)
      && (forall k, l | 0 <= k < l < |segs| && l == k + 1 :: Size(segs[k].lines) + LineSize(segs[l].lines[0]) > maxFileSize)
  {
    TilingLines(lines, spans, maxFileSize, outputPath);
    TilingRule(lines, spans, maxFileSize, outputPath);
  }

  lemma TilingLines(lines: seq<string>, spans: seq<Span>, maxFileSize: int, outputPath: string)
    requires Tiling(lines, spans, maxFileSize)
    ensures AllLines(Files(lines, spans, outputPath)) == lines
    ensures |lines| == 0 <==> |spans| == 0
  {
    CoveredLines(lines, spans, |spans|, outputPath);
    assert spans[..|spans|] == spans;
    assert lines[..|lines|] == lines;
  }

  lemma TilingRule(lines: seq<string>, spans: seq<Span>, maxFileSize: int, outputPath: string)
    requires Tiling(lines, spans, maxFileSize)
    ensures var segs := Files(lines, spans, outputPath);
      && (forall k | 0 <= k < |segs| :: |segs[k].lines| > 0)
      && (forall k | 0 <= k < |segs| :: |segs[k].lines| >= 2 ==> Size(segs[k].lines) <= maxFileSize)
      && (forall k, l | 0 <= k < l < |segs| && l == k + 1 :: Size(segs[k].lines) + LineSize(segs[l].lines[0]) > maxFileSize)
  {
    var segs := Files(lines, spans, outputPath);
    forall k | 0 <= k < |segs|
      ensures Size(segs[k].lines) == RunSize(lines, spans[k].start, spans[k].end)
    {
      SizeOfRun(lines, spans[k].start, spans[k].end);
    }
    forall k, l | 0 <= k < l < |segs| && l == k + 1
      ensures Size(segs[k].lines) + LineSize(segs[l].lines[0]) > maxFileSize
    {
      assert segs[l].lines[0] == lines[spans[l].start];
    }
  }

  /** The first `n` files of a tiling hold the lines up to the end of file
      `n - 1`. */
  lemma {:induction false} CoveredLines(lines: seq<string>, spans: seq<Span>, n: nat, outputPath: string)
    requires forall k | 0 <= k < |spans| :: spans[k].start <= spans[k].end <= |lines|
    requires |spans| > 0 ==> spans[0].start == 0
    requires forall k, l | 0 <= k < l < |spans| && l == k + 1 :: spans[k].end == spans[l].start
    requires n <= |spans|
    ensures AllLines(Files(lines, spans[..n], outputPath)) == lines[..if n == 0 then 0 else spans[n - 1].end]
  {
    if n > 0 {
      var prev := Files(lines, spans[..n - 1], outputPath);
      var last := Segment(SegmentName(outputPath, n - 1), lines[spans[n - 1].start..spans[n - 1].end]);
      assert Files(lines, spans[..n], outputPath) == prev + [last];
      CoveredLines(lines, spans, n - 1, outputPath);
      AllLinesAppend(prev, last);
      var from := if n == 1 then 0 else spans[n - 2].end;
      assert from == spans[n - 1].start;
      PrefixThenSlice(lines, from, spans[n - 1].end);
    }
  }

  lemma PrefixThenSlice<T>(s: seq<T>, i: nat, j: nat)
    requires i <= j <= |s|
    ensures s[..i] + s[i..j] == s[..j]
  {
  }

  /** The size counted line by line is the size of the file holding the
      run. */
  lemma {:induction false} SizeOfRun(lines: seq<string>, start: nat, end: nat)
    requires start <= end <= |lines|
    ensures Size(lines[start..end]) == RunSize(lines, start, end)
    decreases end
  {
    if end > start {
      SizeOfRun(lines, start, end - 1);
      assert lines[start..end][..end - 1 - start] == lines[start..end - 1];
    }
  }

  /** A prefix of a file is no larger than the file. */
  lemma {:induction false} SizeMonotone(lines: seq<string>, j: nat)
    requires j <= |lines|
    ensures Size(lines[..j]) <= Size(lines)
    decreases |lines|
  {
    if j < |lines| {
      SizeMonotone(lines[..|lines| - 1], j);
      assert lines[..|lines| - 1][..j] == lines[..j];
    } else {
      assert lines[..j] == lines;
    }
  }

  /** The greedy rule leaves no choice: two splits of the same lines that
      both follow it put the same lines in the same files. */
  lemma {:induction false} GreedyIsUnique(a: seq<Segment>, b: seq<Segment>, maxFileSize: int)
    requires AllLines(a) == AllLines(b)
    requires Greedy(a, maxFileSize) && Greedy(b, maxFileSize)
    ensures |a| == |b|
    ensures forall k | 0 <= k < |a| :: a[k].lines == b[k].lines
    decreases |a|
  {
    if |a| == 0 || |b| == 0 {
    } else {
      var lines := AllLines(a);
      var la, lb := a[0].lines, b[0].lines;
      FirstFileFull(a, b, maxFileSize);
      FirstFileFull(b, a, maxFileSize);
      assert la == lines[..|la|] == lb;
      assert AllLines(a[1..]) == AllLines(b[1..]) by {
        assert lines == la + AllLines(a[1..]) == lb + AllLines(b[1..]);
      }
      GreedyTail(a, maxFileSize);
      GreedyTail(b, maxFileSize);
      GreedyIsUnique(a[1..], b[1..], maxFileSize);
      forall k | 0 <= k < |a|
        ensures a[k].lines == b[k].lines
      {
        if k > 0 {
          assert a[k] == a[1..][k - 1] && b[k] == b[1..][k - 1];
        }
      }
    }
  }

  /** Dropping the first file keeps the rule. */
  lemma GreedyTail(a: seq<Segment>, maxFileSize: int)
    requires |a| > 0 && Greedy(a, maxFileSize)
    ensures Greedy(a[1..], maxFileSize)
  {
    forall k, l | 0 <= k < l < |a[1..]| && l == k + 1
      ensures Size(a[1..][k].lines) + LineSize(a[1..][l].lines[0]) > maxFileSize
    {
      assert a[1..][k] == a[k + 1] && a[1..][l] == a[l + 1];
    }
  }

  /** Under the rule, the first file of a split cannot be a proper prefix of
      the first file of another split of the same lines. */
  lemma FirstFileFull(a: seq<Segment>, b: seq<Segment>, maxFileSize: int)
    requires AllLines(a) == AllLines(b)
    requires Greedy(a, maxFileSize) && Greedy(b, maxFileSize)
    requires |a| > 0 && |b| > 0
    ensures |a[0].lines| >= |b[0].lines|
  {
    var la, lb := a[0].lines, b[0].lines;
    if |la| < |lb| {
      FirstFileOverflows(a, b, maxFileSize);
      assert false;
    }
  }

  /** If `a`'s first file stops short of `b`'s, which is within the limit,
      the line after it would still have fitted. */
  lemma FirstFileOverflows(a: seq<Segment>, b: seq<Segment>, maxFileSize: int)
    requires AllLines(a) == AllLines(b)
    requires forall k | 0 <= k < |a| :: |a[k].lines| > 0
    requires |a| > 0 && |b| > 0 && |a[0].lines| < |b[0].lines|
    requires Size(b[0].lines) <= maxFileSize
    ensures |a| >= 2 && Size(a[0].lines) + LineSize(a[1].lines[0]) <= maxFileSize
  {
    var la, lb := a[0].lines, b[0].lines;
    var n := |la|;
    CommonPrefix(la, AllLines(a[1..]), lb, AllLines(b[1..]));
    // `a` has a second file, which starts with the line after `la`.
    assert |a| >= 2;
    assert AllLines(a[1..]) == a[1].lines + AllLines(a[2..]) by {
      assert a[1..][0] == a[1] && a[1..][1..] == a[2..];
    }
    assert lb[n] == a[1].lines[0];
    // That line fits in `b`'s first file, so it would have fitted in `a`'s.
    SizeMonotone(lb, n + 1);
    SizeSnoc(la, lb[n]);
  }

  /** Two ways of writing the same sequence, the first part of one shorter
      than that of the other. */
  lemma CommonPrefix<T>(x: seq<T>, xs: seq<T>, y: seq<T>, ys: seq<T>)
    requires x + xs == y + ys && |x| < |y|
    ensures |xs| > 0 && xs[0] == y[|x|]
    ensures y[..|x| + 1] == x + [y[|x|]]
  {
    assert (x + xs)[|x|] == (y + ys)[|x|];
    forall k | 0 <= k < |x|
      ensures y[k] == x[k]
    {
      assert (x + xs)[k] == (y + ys)[k];
    }
  }

  lemma SizeSnoc(lines: seq<string>, line: string)
    ensures Size(lines + [line]) == Size(lines) + LineSize(line)
  {
    assert (lines + [line])[..|lines|] == lines;
  }
}

// Greedy word wrap between the margins, and the run of glyphs it draws.
module WordWrap {
  import opened Bytes
  import opened Utf8
  import opened Utf8Decoder
  import opened Screen

  const MARGIN_L: int := 32
  const MARGIN_R: int := 32
  const LIMIT: int := FB_W - MARGIN_R - MARGIN_L
  const MAX_CP: nat := 512
  const SPACE: CodePoint := 0x20

  /** A font: the advance of each code point, the same when measuring and when drawing, and whether its glyph loads. */
  datatype Face = Face(advance: CodePoint -> nat, loads: CodePoint -> bool)

  /** A glyph at a pen position on a baseline. */
  datatype Placement = Placement(cp: CodePoint, x: int, baseline: int)

  // ----- Widths -----

  function Width(f: Face, s: seq<CodePoint>): nat
    decreases |s|
  {
    if s == [] then 0 else Width(f, s[..|s| - 1]) + f.advance(s[|s| - 1])
  }

  lemma WidthNext(f: Face, s: seq<CodePoint>, k: nat)
    requires k < |s|
    ensures Width(f, s[..k + 1]) == Width(f, s[..k]) + f.advance(s[k])
  {
    assert s[..k + 1][..k] == s[..k];
  }

  // ----- Where a line ends -----

  /** Glyph k fits behind those before it, or only glyphs without advance are before it. */
  ghost predicate FitsAt(f: Face, s: seq<CodePoint>, k: nat)
    requires k < |s|
  {
    Width(f, s[..k]) == 0 || Width(f, s[..k + 1]) <= LIMIT
  }

  ghost predicate Accepted(f: Face, s: seq<CodePoint>) {
    forall k: nat | k < |s| :: FitsAt(f, s, k)
  }

  /** The longest accepted stretch has e glyphs. */
  ghost predicate Measured(f: Face, rest: seq<CodePoint>, e: nat) {
    && e <= |rest| && Accepted(f, rest[..e])
    && (e < |rest| ==> Width(f, rest[..e]) > 0 && Width(f, rest[..e + 1]) > LIMIT)
  }

  /** b is the last space of the stretch, neither at its beginning nor at its end. */
  ghost predicate BreakAt(rest: seq<CodePoint>, e: nat, b: nat) {
    0 < b && b + 1 < e <= |rest| && rest[b] == SPACE && forall k | b < k < e :: rest[k] != SPACE
  }

  /**
    * A measured stretch is cut behind its last space, or, at the end of the text or without such a space,
    * not at all.
    */
  ghost predicate CutAt(rest: seq<CodePoint>, e: nat, end: nat) {
    || (e < |rest| && end > 0 && BreakAt(rest, e, end - 1))
    || (end == e && (e == |rest| || forall b: nat :: !BreakAt(rest, e, b)))
  }

  /** Where the first line of a text ends. */
  ghost predicate Ends(f: Face, rest: seq<CodePoint>, end: nat) {
    exists e: nat :: Measured(f, rest, e) && CutAt(rest, e, end)
  }

  /** The lines of a text up to the rest that is not wrapped yet. */
  ghost predicate WrappedUpTo(f: Face, cps: seq<CodePoint>, lines: seq<seq<CodePoint>>, rest: seq<CodePoint>)
    decreases |lines|
  {
    if lines == [] then rest == cps else
      && lines[0] != [] && lines[0] <= cps
      && Ends(f, cps, |lines[0]|) && WrappedUpTo(f, cps[|lines[0]|..], lines[1..], rest)
  }

  ghost predicate Wrapped(f: Face, cps: seq<CodePoint>, lines: seq<seq<CodePoint>>) {
    WrappedUpTo(f, cps, lines, [])
  }

  lemma {:induction false} WidthGrows(f: Face, s: seq<CodePoint>, j: nat, k: nat)
    requires j <= k <= |s|
    ensures Width(f, s[..j]) <= Width(f, s[..k])
    decreases k
  {
    if j < k {
      WidthNext(f, s, k - 1);
      WidthGrows(f, s, j, k - 1);
    }
  }

  lemma PrefixAccepted(f: Face, s: seq<CodePoint>, e: nat)
    requires e <= |s| && Accepted(f, s)
    ensures Accepted(f, s[..e])
  {
    forall k: nat | k < e ensures FitsAt(f, s[..e], k) {
      assert FitsAt(f, s, k);
      assert s[..e][..k] == s[..k] && s[..e][..k + 1] == s[..k + 1];
    }
  }

  lemma AcceptedAt(f: Face, rest: seq<CodePoint>, e: nat, k: nat)
    requires k < e <= |rest| && Accepted(f, rest[..e])
    ensures FitsAt(f, rest, k)
  {
    assert FitsAt(f, rest[..e], k);
    assert rest[..e][..k] == rest[..k] && rest[..e][..k + 1] == rest[..k + 1];
  }

  lemma MeasuredOnce(f: Face, rest: seq<CodePoint>, e: nat, e': nat)
    requires Measured(f, rest, e) && Measured(f, rest, e')
    ensures e == e'
  {
    if e < e' {
      AcceptedAt(f, rest, e', e);
    } else if e' < e {
      AcceptedAt(f, rest, e, e');
    }
  }

  /** The text and the font determine where a line ends. */
  lemma EndsOnce(f: Face, rest: seq<CodePoint>, end: nat, end': nat)
    requires Ends(f, rest, end) && Ends(f, rest, end')
    ensures end == end'
  {
    var e: nat :| Measured(f, rest, e) && CutAt(rest, e, end);
    var e': nat :| Measured(f, rest, e') && CutAt(rest, e', end');
    MeasuredOnce(f, rest, e, e');
  }

  /** There is one way to wrap a text. */
  lemma {:induction false} WrappedOnce(f: Face, cps: seq<CodePoint>, lines: seq<seq<CodePoint>>,
                                       lines': seq<seq<CodePoint>>)
    requires Wrapped(f, cps, lines) && Wrapped(f, cps, lines')
    ensures lines == lines'
    decreases |lines|
  {
    if lines != [] && lines' != [] {
      EndsOnce(f, cps, |lines[0]|, |lines'[0]|);
      WrappedOnce(f, cps[|lines[0]|..], lines[1..], lines'[1..]);
      assert lines[0] == cps[..|lines[0]|] == lines'[0];
      assert lines == [lines[0]] + lines[1..] && lines' == [lines'[0]] + lines'[1..];
    }
  }

  // ----- What lines are like -----

  /** One glyph wider than a line, with at most glyphs without advance before it. */
  ghost predicate Overwide(f: Face, line: seq<CodePoint>) {
    line != [] && Width(f, line[..|line| - 1]) == 0 && f.advance(line[|line| - 1]) > LIMIT
  }

  lemma AcceptedFits(f: Face, line: seq<CodePoint>)
    requires Accepted(f, line)
    ensures Width(f, line) <= LIMIT || Overwide(f, line)
  {
    if line != [] {
      assert FitsAt(f, line, |line| - 1);
      assert line[..|line| - 1 + 1] == line;
    }
  }

  function Concat(lines: seq<seq<CodePoint>>): seq<CodePoint> {
    if lines == [] then [] else lines[0] + Concat(lines[1..])
  }

  /** What holds of the line that a rest of the text begins with. */
  ghost predicate GoodLine(f: Face, rest: seq<CodePoint>, end: nat) {
    && 0 < end <= |rest|
    && (Width(f, rest[..end]) <= LIMIT || Overwide(f, rest[..end]))
    && (end < |rest| && rest[end - 1] != SPACE ==>
          (forall k | 0 < k < end :: rest[k] != SPACE) && Width(f, rest[..end]) > 0 && Width(f, rest[..end + 1]) > LIMIT)
  }

  lemma WidthOfNone(f: Face, s: seq<CodePoint>)
    ensures Width(f, s[..0]) == 0
  {}

  /**
    * A line is not empty, fits unless it is overwide, and is cut behind a glyph other than a space only
    * where it has no space to be cut at and the next glyph does not fit.
    */
  lemma EndsWell(f: Face, rest: seq<CodePoint>, end: nat)
    requires rest != [] && Ends(f, rest, end)
    ensures GoodLine(f, rest, end)
  {
    var e: nat :| Measured(f, rest, e) && CutAt(rest, e, end);
    WidthOfNone(f, rest);
    PrefixAccepted(f, rest[..e], end);
    assert rest[..e][..end] == rest[..end];
    AcceptedFits(f, rest[..end]);
    if end < |rest| && rest[end - 1] != SPACE {
      forall k | 0 < k < end ensures rest[k] != SPACE {
        if rest[k] == SPACE {
          SpaceIsBreak(rest, end, k);
        }
      }
    }
  }

  /** A line is cut as late as it can be: no later space would have fitted on it. */
  lemma EndsLate(f: Face, rest: seq<CodePoint>, end: nat, k: nat)
    requires rest != [] && Ends(f, rest, end) && end < k < |rest| && rest[k - 1] == SPACE
    ensures Width(f, rest[..k]) > LIMIT
  {
    var e: nat :| Measured(f, rest, e) && CutAt(rest, e, end);
    if k > e {
      WidthGrows(f, rest, e + 1, k);
    }
  }

  lemma {:induction false} LastSpace(rest: seq<CodePoint>, e: nat, k: nat) returns (b: nat)
    requires k < e <= |rest| && rest[k] == SPACE
    ensures k <= b < e && rest[b] == SPACE && forall j | b < j < e :: rest[j] != SPACE
    decreases e
  {
    if rest[e - 1] == SPACE {
      b := e - 1;
    } else {
      b := LastSpace(rest, e - 1, k);
    }
  }

  /** A stretch with a space inside has a last one. */
  lemma SpaceIsBreak(rest: seq<CodePoint>, e: nat, k: nat)
    requires 0 < k < e <= |rest| && rest[k] == SPACE && rest[e - 1] != SPACE
    ensures exists b: nat :: BreakAt(rest, e, b)
  {
    var b := LastSpace(rest, e, k);
    assert BreakAt(rest, e, b);
  }

  /** Every line is good where it stands in the text. */
  ghost predicate GoodLines(f: Face, cps: seq<CodePoint>, lines: seq<seq<CodePoint>>)
    decreases |lines|
  {
    lines == [] ||
    (lines[0] <= cps && GoodLine(f, cps, |lines[0]|) && GoodLines(f, cps[|lines[0]|..], lines[1..]))
  }

  /**
    * The lines of a text, one after the other, are the text; each is good, and none is empty or too wide
    * unless a glyph is.
    */
  lemma {:induction false} WrapIsPartition(f: Face, cps: seq<CodePoint>, lines: seq<seq<CodePoint>>)
    requires Wrapped(f, cps, lines)
    ensures Concat(lines) == cps && GoodLines(f, cps, lines)
    ensures forall i | 0 <= i < |lines| ::
              lines[i] != [] && (Width(f, lines[i]) <= LIMIT || Overwide(f, lines[i]))
    decreases |lines|
  {
    if lines != [] {
      EndsWell(f, cps, |lines[0]|);
      WrapIsPartition(f, cps[|lines[0]|..], lines[1..]);
      assert cps == lines[0] + cps[|lines[0]|..];
    }
  }

  // ----- Drawing a line -----

  datatype Run = Run(glyphs: seq<Placement>, pen: int)

  /** The glyphs of a line from a pen position on; spaces are dropped while the pen is at the margin. */
  function Draw(f: Face, line: seq<CodePoint>, pen: int, baseline: int): Run
    decreases |line|
  {
    if line == [] then Run([], pen)
    else if line[0] == SPACE && pen == MARGIN_L then Draw(f, line[1..], pen, baseline)
    else
      var rest := Draw(f, line[1..], pen + f.advance(line[0]), baseline);
      if f.loads(line[0]) then rest.(glyphs := [Placement(line[0], pen, baseline)] + rest.glyphs) else rest
  }

  function DrawAll(f: Face, lines: seq<seq<CodePoint>>, baseline: int, leading: int): seq<Placement> {
    if lines == [] then [] else
      Draw(f, lines[0], MARGIN_L, baseline).glyphs + DrawAll(f, lines[1..], baseline + leading, leading)
  }

  function Sum(f: Face, line: seq<CodePoint>): nat {
    if line == [] then 0 else f.advance(line[0]) + Sum(f, line[1..])
  }

  lemma {:induction false} SumIsWidth(f: Face, line: seq<CodePoint>, k: nat)
    requires k <= |line|
    ensures Width(f, line[..k]) + Sum(f, line[k..]) == Width(f, line)
    decreases |line| - k
  {
    if k < |line| {
      WidthNext(f, line, k);
      SumIsWidth(f, line, k + 1);
      assert line[k..][1..] == line[k + 1..];
    } else {
      assert line[..k] == line;
    }
  }

  /** The pen ends no further than the width of the line, and no glyph is drawn before the start or beyond the end. */
  lemma {:induction false} DrawStaysInside(f: Face, line: seq<CodePoint>, pen: int, baseline: int)
    ensures var run := Draw(f, line, pen, baseline);
            && pen <= run.pen <= pen + Sum(f, line)
            && forall i | 0 <= i < |run.glyphs| ::
                 pen <= run.glyphs[i].x && run.glyphs[i].x + f.advance(run.glyphs[i].cp) <= run.pen
                 && run.glyphs[i].baseline == baseline
    decreases |line|
  {
    if line != [] {
      if line[0] == SPACE && pen == MARGIN_L {
        DrawStaysInside(f, line[1..], pen, baseline);
      } else {
        DrawStaysInside(f, line[1..], pen + f.advance(line[0]), baseline);
      }
    }
  }

  /** The placements of the first n glyphs of a line that begins at x: each at the width of what is before it, if it loads. */
  function Placements(f: Face, line: seq<CodePoint>, x: int, baseline: int, n: nat): seq<Placement>
    requires n <= |line|
    decreases n
  {
    if n == 0 then [] else
      Placements(f, line, x, baseline, n - 1)
      + if f.loads(line[n - 1]) then [Placement(line[n - 1], x + Width(f, line[..n - 1]), baseline)] else []
  }

  lemma {:induction false} DrawFrom(f: Face, line: seq<CodePoint>, x: int, baseline: int, k: nat)
    requires k <= |line| && x + Width(f, line[..k]) > MARGIN_L
    ensures var rest := Draw(f, line[k..], x + Width(f, line[..k]), baseline);
            && Placements(f, line, x, baseline, |line|) == Placements(f, line, x, baseline, k) + rest.glyphs
            && rest.pen == x + Width(f, line)
    decreases |line| - k
  {
    if k < |line| {
      WidthNext(f, line, k);
      DrawFrom(f, line, x, baseline, k + 1);
      assert line[k..][0] == line[k] && line[k..][1..] == line[k + 1..];
      if f.loads(line[k]) {
        AppendAssociates(Placements(f, line, x, baseline, k), [Placement(line[k], x + Width(f, line[..k]), baseline)],
                         Draw(f, line[k + 1..], x + Width(f, line[..k + 1]), baseline).glyphs);
      }
    } else {
      assert line[..k] == line && line[k..] == [];
    }
  }

  /**
    * A line that begins with a visible glyph is drawn in full: every glyph that loads stands at the width of
    * what is before it, spaces included, and the pen ends behind all of them.
    */
  lemma DrawPlacesAll(f: Face, line: seq<CodePoint>, baseline: int)
    requires line != [] && line[0] != SPACE && f.advance(line[0]) > 0
    ensures Draw(f, line, MARGIN_L, baseline)
            == Run(Placements(f, line, MARGIN_L, baseline, |line|), MARGIN_L + Width(f, line))
  {
    WidthOfNone(f, line);
    WidthNext(f, line, 0);
    DrawFrom(f, line, MARGIN_L, baseline, 1);
  }

  /** A space at the margin is dropped; another glyph without advance is drawn there and leaves the pen where it is. */
  lemma DrawAtMargin(f: Face, c: CodePoint, line: seq<CodePoint>, baseline: int)
    ensures c == SPACE ==> Draw(f, [c] + line, MARGIN_L, baseline) == Draw(f, line, MARGIN_L, baseline)
    ensures c != SPACE && f.advance(c) == 0 ==>
              Draw(f, [c] + line, MARGIN_L, baseline)
              == Run((if f.loads(c) then [Placement(c, MARGIN_L, baseline)] else []) + Draw(f, line, MARGIN_L, baseline).glyphs,
                     Draw(f, line, MARGIN_L, baseline).pen)
  {
    assert ([c] + line)[1..] == line;
  }

  /** Each line stands one leading below the one before it, in order. */
  lemma {:induction false} LinesStack(f: Face, above: seq<seq<CodePoint>>, line: seq<CodePoint>,
                                      below: seq<seq<CodePoint>>, baseline: int, leading: int)
    ensures DrawAll(f, above + [line] + below, baseline, leading)
            == DrawAll(f, above, baseline, leading)
               + Draw(f, line, MARGIN_L, baseline + |above| * leading).glyphs
               + DrawAll(f, below, baseline + (|above| + 1) * leading, leading)
    decreases |above|
  {
    hide Draw;
    if above == [] {
      assert ([] + [line] + below)[1..] == below && ([] + [line] + below)[0] == line;
    } else {
      LinesStack(f, above[1..], line, below, baseline + leading, leading);
      assert (above + [line] + below)[1..] == above[1..] + [line] + below;
      LeadingsAdd(baseline, leading, |above|);
      FourParts(Draw(f, above[0], MARGIN_L, baseline).glyphs, DrawAll(f, above[1..], baseline + leading, leading),
                Draw(f, line, MARGIN_L, baseline + |above| * leading).glyphs,
                DrawAll(f, below, baseline + (|above| + 1) * leading, leading));
    }
  }

  lemma LeadingsAdd(baseline: int, leading: int, n: nat)
    requires n > 0
    ensures baseline + leading + (n - 1) * leading == baseline + n * leading
    ensures baseline + leading + (n - 1 + 1) * leading == baseline + (n + 1) * leading
  {}

  lemma FourParts<T>(a: seq<T>, b: seq<T>, c: seq<T>, d: seq<T>)
    ensures a + (b + c + d) == (a + b) + c + d
  {}

  /** A line that is not overwide is drawn between the margins. */
  lemma LineStaysInside(f: Face, line: seq<CodePoint>, baseline: int)
    requires Width(f, line) <= LIMIT
    ensures var run := Draw(f, line, MARGIN_L, baseline);
            && run.pen <= FB_W - MARGIN_R
            && forall i | 0 <= i < |run.glyphs| ::
                 MARGIN_L <= run.glyphs[i].x && run.glyphs[i].x + f.advance(run.glyphs[i].cp) <= FB_W - MARGIN_R
  {
    SumIsWidth(f, line, 0);
    assert line[..0] == [] && line[0..] == line;
    DrawStaysInside(f, line, MARGIN_L, baseline);
  }

  // ----- The code -----

  /** The stretch from p to i has been accepted, and lastSpace is its last space, -1 if it has none. */
  ghost predicate MeasuredUpTo(f: Face, cps: seq<CodePoint>, p: nat, i: nat, pen: nat, lastSpace: int) {
    && p <= i <= |cps| && pen == Width(f, cps[p..][..i - p]) && Accepted(f, cps[p..][..i - p])
    && (lastSpace == -1 || (p <= lastSpace < i && cps[lastSpace] == SPACE))
    && (forall k | p <= k < i && lastSpace < k :: cps[k] != SPACE)
  }

  lemma MeasureNext(f: Face, cps: seq<CodePoint>, p: nat, i: nat, pen: nat, lastSpace: int)
    requires MeasuredUpTo(f, cps, p, i, pen, lastSpace) && i < |cps|
    ensures var w := f.advance(cps[i]);
            && Width(f, cps[p..][..i - p + 1]) == pen + w
            && (pen == 0 || pen + w <= LIMIT ==>
                  MeasuredUpTo(f, cps, p, i + 1, pen + w, if cps[i] == SPACE then i else lastSpace))
  {
    var rest := cps[p..];
    WidthNext(f, rest, i - p);
    if pen == 0 || pen + f.advance(cps[i]) <= LIMIT {
      AcceptedNext(f, rest, i - p);
    }
  }

  lemma AcceptedNext(f: Face, s: seq<CodePoint>, k: nat)
    requires k < |s| && Accepted(f, s[..k]) && FitsAt(f, s, k)
    ensures Accepted(f, s[..k + 1])
  {
    var t := s[..k + 1];
    forall j: nat | j < |t| ensures FitsAt(f, t, j) {
      assert t[..j] == s[..j] && t[..j + 1] == s[..j + 1];
      if j < k {
        AcceptedAt(f, s, k, j);
      }
    }
  }

  lemma StretchEnds(f: Face, cps: seq<CodePoint>, p: nat, i: nat, pen: nat, lastSpace: int)
    requires p < |cps| && MeasuredUpTo(f, cps, p, i, pen, lastSpace)
    requires i < |cps| ==> pen > 0 && pen + f.advance(cps[i]) > LIMIT
    ensures i > p
    ensures Ends(f, cps[p..], if i < |cps| && lastSpace > p && lastSpace + 1 < i then lastSpace + 1 - p else i - p)
  {
    var rest := cps[p..];
    if i < |cps| {
      MeasureNext(f, cps, p, i, pen, lastSpace);
    }
    assert Measured(f, rest, i - p);
    if i < |cps| && lastSpace > p && lastSpace + 1 < i {
      assert BreakAt(rest, i - p, lastSpace - p);
    }
  }

  /** Advances over as much as fits, remembering the last space, and decides where the line ends. */
  method LineEnd(f: Face, cps: seq<CodePoint>, p: nat) returns (end: nat)
    requires p < |cps|
    ensures p < end <= |cps| && Ends(f, cps[p..], end - p)
  {
    var n, i, lastSpace := |cps|, p, -1;
    var pen: nat := 0;
    while i < n
      invariant MeasuredUpTo(f, cps, p, i, pen, lastSpace)
    {
      MeasureNext(f, cps, p, i, pen, lastSpace);
      var w := f.advance(cps[i]);
      if pen > 0 && pen + w > LIMIT {
        break;
      }
      pen := pen + w;
      if cps[i] == SPACE {
        lastSpace := i;
      }
      i := i + 1;
    }
    StretchEnds(f, cps, p, i, pen, lastSpace);
    var lineEnd := i;
    if i < n && lastSpace > p && lastSpace + 1 < i {
      lineEnd := lastSpace + 1;
    }
    if lineEnd == p {
      lineEnd := p + 1;
    }
    end := lineEnd;
  }

  lemma DrawNext(f: Face, line: seq<CodePoint>, i: nat, pen: int, baseline: int)
    requires i < |line|
    ensures line[i..][0] == line[i] && line[i..][1..] == line[i + 1..]
  {}

  /** Draws a run of code points on one baseline. */
  method RenderCps(f: Face, line: seq<CodePoint>, baseline: int) returns (pen: int, glyphs: seq<Placement>)
    ensures Run(glyphs, pen) == Draw(f, line, MARGIN_L, baseline)
  {
    pen, glyphs := MARGIN_L, [];
    var i := 0;
    while i < |line|
      invariant 0 <= i <= |line|
      invariant var rest := Draw(f, line[i..], pen, baseline);
                Draw(f, line, MARGIN_L, baseline) == Run(glyphs + rest.glyphs, rest.pen)
    {
      DrawNext(f, line, i, pen, baseline);
      if line[i] == SPACE && pen == MARGIN_L {
        i := i + 1;
        continue;
      }
      if f.loads(line[i]) {
        AppendAssociates(glyphs, [Placement(line[i], pen, baseline)],
                         Draw(f, line[i + 1..], pen + f.advance(line[i]), baseline).glyphs);
        glyphs := glyphs + [Placement(line[i], pen, baseline)];
      }
      pen := pen + f.advance(line[i]);
      i := i + 1;
    }
    assert line[i..] == [] && glyphs + [] == glyphs;
  }

  lemma {:induction false} WrapNext(f: Face, cps: seq<CodePoint>, lines: seq<seq<CodePoint>>, rest: seq<CodePoint>,
                                    end: nat)
    requires WrappedUpTo(f, cps, lines, rest) && 0 < end <= |rest| && Ends(f, rest, end)
    ensures WrappedUpTo(f, cps, lines + [rest[..end]], rest[end..])
    decreases |lines|
  {
    if lines != [] {
      WrapNext(f, cps[|lines[0]|..], lines[1..], rest, end);
      assert (lines + [rest[..end]])[1..] == lines[1..] + [rest[..end]];
    }
  }

  lemma {:induction false} DrawAllNext(f: Face, lines: seq<seq<CodePoint>>, line: seq<CodePoint>, baseline: int,
                                       leading: int)
    ensures DrawAll(f, lines + [line], baseline, leading)
            == DrawAll(f, lines, baseline, leading) + Draw(f, line, MARGIN_L, baseline + |lines| * leading).glyphs
    decreases |lines|
  {
    hide Draw;
    if lines != [] {
      DrawAllNext(f, lines[1..], line, baseline + leading, leading);
      assert (lines + [line])[1..] == lines[1..] + [line];
      assert baseline + leading + (|lines| - 1) * leading == baseline + |lines| * leading;
    }
  }

  /** One more line has been drawn below the others. */
  ghost predicate Drawn(f: Face, lines: seq<seq<CodePoint>>, baseline: int, leading: int, count: nat, next: int,
                        glyphs: seq<Placement>) {
    count == |lines| && next == baseline + count * leading && glyphs == DrawAll(f, lines, baseline, leading)
  }

  lemma DrawnNext(f: Face, lines: seq<seq<CodePoint>>, line: seq<CodePoint>, baseline: int, leading: int, count: nat,
                  next: int,
                  glyphs: seq<Placement>)
    requires Drawn(f, lines, baseline, leading, count, next, glyphs)
    ensures Drawn(f, lines + [line], baseline, leading, count + 1, next + leading, glyphs + Draw(f, line, MARGIN_L, next).glyphs)
  {
    DrawAllNext(f, lines, line, baseline, leading);
    assert (count + 1) * leading == count * leading + leading;
  }

  lemma WrapLine(f: Face, cps: seq<CodePoint>, lines: seq<seq<CodePoint>>, p: nat, end: nat)
    requires p < end <= |cps| && WrappedUpTo(f, cps, lines, cps[p..]) && Ends(f, cps[p..], end - p)
    ensures WrappedUpTo(f, cps, lines + [cps[p..end]], cps[end..])
  {
    WrapNext(f, cps, lines, cps[p..], end - p);
    assert cps[p..][..end - p] == cps[p..end] && cps[p..][end - p..] == cps[end..];
  }

  /** The loop over the lines. */
  method RenderLines(f: Face, cps: seq<CodePoint>, baseline: int, leading: int)
      returns (count: nat, next: int, glyphs: seq<Placement>, lines: seq<seq<CodePoint>>)
    ensures Wrapped(f, cps, lines) && Drawn(f, lines, baseline, leading, count, next, glyphs)
  {
    count, next, glyphs, lines := 0, baseline, [], [];
    var p := 0;
    assert cps[0..] == cps;
    hide Drawn, WrappedUpTo, Ends, Draw;
    assert Drawn(f, [], baseline, leading, 0, baseline, []) && WrappedUpTo(f, cps, [], cps) by {
      NothingDrawn(f, cps, baseline, leading);
    }
    while p < |cps|
      invariant 0 <= p <= |cps|
      invariant Drawn(f, lines, baseline, leading, count, next, glyphs)
      invariant WrappedUpTo(f, cps, lines, cps[p..])
    {
      var end := LineEnd(f, cps, p);
      var _, drawn := RenderCps(f, cps[p..end], next);
      WrapLine(f, cps, lines, p, end);
      DrawnNext(f, lines, cps[p..end], baseline, leading, count, next, glyphs);
      glyphs := glyphs + drawn;
      lines := lines + [cps[p..end]];
      next := next + leading;
      count := count + 1;
      p := end;
    }
    assert cps[p..] == [];
  }

  lemma NothingDrawn(f: Face, cps: seq<CodePoint>, baseline: int, leading: int)
    ensures Drawn(f, [], baseline, leading, 0, baseline, []) && WrappedUpTo(f, cps, [], cps)
  {}

  /**
    * Decodes a string of at most MAX_CP code points and draws it as wrapped lines, moving the baseline
    * down after each. The drawn glyphs are those of the lines.
    */
  method RenderBlock(f: Face, text: seq<Byte>, baseline: int, leading: int)
      returns (count: nat, next: int, glyphs: seq<Placement>, lines: seq<seq<CodePoint>>)
    requires Terminated(text) && |Decode(text[..|text| - 1]).cps| <= MAX_CP
    ensures Wrapped(f, Decode(text[..|text| - 1]).cps, lines)
    ensures Drawn(f, lines, baseline, leading, count, next, glyphs)
  {
    hide Drawn, Wrapped;
    var out := new CodePoint[MAX_CP];
    var n, _ := DecodeUtf8(text, out, MAX_CP);
    assert out[..n] == Decode(text[..|text| - 1]).cps;
    count, next, glyphs, lines := RenderLines(f, out[..n], baseline, leading);
  }
}

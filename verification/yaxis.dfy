/** The y-axis scale of a track (GenomeTrack.plot_y_axis): where the ticks,
    the labels and the bracket-shaped line go, and what the labels say. The
    drawing calls are replaced by the plan they would receive. Floating-point
    functions are abstract fields of `Numerics`. */
module YAxis {
  import opened Wrappers
  import opened Strings

  /** The numeric primitives the scale uses. */
  datatype Numerics = Numerics(
    exp: real -> real,         // np.exp
    exp2: real -> real,        // np.exp2
    pow10: real -> real,       // np.power(10, .)
    expm1: real -> real,       // np.expm1
    format1f: real -> string,  // f"{v:.1f}"
    realToStr: real -> string) // str(v) of the pseudocount

  /** The default of `y_axis` (line 82), spelled as in the source. */
  const DefaultYAxis: string := "tranformed"

  /** The transformations `untransform` knows. */
  const KnownTransforms: set<string> := {"log", "log2", "log10", "log1p", "-log"}

  /** Lines 109-121: the value before the transformation; None (Python's
      implicit `None`) for a transformation it does not know. */
  function Untransform(value: real, transform: string, pseudocount: real, num: Numerics): (r: Option<real>)
    ensures r.Some? <==> transform in KnownTransforms
  {
    if transform == "log" then Some(num.exp(value) - pseudocount)
    else if transform == "log2" then Some(num.exp2(value) - pseudocount)
    else if transform == "log10" then Some(num.pow10(value) - pseudocount)
    else if transform == "log1p" then Some(num.expm1(value))
    else if transform == "-log" then Some(num.exp(-value) - pseudocount)
    else None
  }

  predicate IsIntegral(v: real)
  {
    v == v.Floor as real
  }

  /** Lines 100-107: integral values print without decimals, others with one
      (formatting with one decimal is a parameter); the label of an integral
      value is canonical decimal text, as `str(int)` writes it, that reads back
      as the value (by `CanonicalUnique`, it is the only such text). */
  function ValueToStr(v: real, num: Numerics): (s: string)
    ensures IsIntegral(v) ==> CanonicalDecimal(s) && DecimalValue(s) as real == v
  {
    if IsIntegral(v) then
      DecimalRoundTrip(v.Floor);
      IntToDecimal(v.Floor)
    else num.format1f(v)
  }

  /** `log1p` is undone by `expm1` alone: the pseudocount plays no part. */
  lemma Log1pIgnoresPseudocount(value: real, p: real, q: real, num: Numerics)
    ensures Untransform(value, "log1p", p, num) == Untransform(value, "log1p", q, num)
  {
  }

  /** The call's arguments and the values read from the axes. */
  datatype AxisRequest = AxisRequest(
    showDataRange: Option<bool>,  // self.properties.get('show_data_range'), absent is True
    ymin: real,
    ymax: real,                   // plot_axis.get_ylim()
    yticks: seq<real>,            // plot_axis.get_yticks()
    transform: string,
    logPseudocount: real,
    yAxis: string,
    onlyAtTicks: bool)

  /** The labels show values before the transformation (lines 145 and 150 test
      the negation of this). */
  predicate OriginalUnits(req: AxisRequest)
  {
    req.transform != "no" && req.yAxis != "transformed"
  }

  /** The misspelled default never equals "transformed": any transformation
      is displayed in original units unless `y_axis` is given explicitly. */
  lemma DefaultShowsOriginalUnits(req: AxisRequest)
    requires req.yAxis == DefaultYAxis && req.transform != "no"
    ensures OriginalUnits(req)
  {
  }

  /** The ticks of `ts` within `[lo, hi]`, in their order. */
  function Within(ts: seq<real>, lo: real, hi: real): (r: seq<real>)
    ensures forall i | 0 <= i < |r| :: lo <= r[i] <= hi
    ensures forall t | t in ts && lo <= t <= hi :: t in r
    ensures forall t | t in r :: t in ts
    ensures forall t :: multiset(r)[t] == if lo <= t <= hi then multiset(ts)[t] else 0
    decreases |ts|
  {
    if ts == [] then []
    else
      assert ts == [ts[0]] + ts[1..];
      if lo <= ts[0] <= hi then [ts[0]] + Within(ts[1..], lo, hi)
      else Within(ts[1..], lo, hi)
  }

  lemma {:induction false} WithinIsSubsequence(ts: seq<real>, lo: real, hi: real)
    ensures IsSubsequence(Within(ts, lo, hi), ts)
    decreases |ts|
  {
    if ts != [] {
      WithinIsSubsequence(ts[1..], lo, hi);
      if lo <= ts[0] <= hi {
        assert Within(ts, lo, hi)[1..] == Within(ts[1..], lo, hi);
      } else {
        SubsequenceOfTail(Within(ts, lo, hi), ts);
      }
    } else {
      SubsequenceRefl(ts);
    }
  }

  predicate Descending(s: seq<real>)
  {
    forall i, j | 0 <= i < j < |s| :: s[i] >= s[j]
  }

  lemma DescendingCons(h: real, t: seq<real>)
    requires Descending(t) && (t == [] || h >= t[0])
    ensures Descending([h] + t)
  {
    forall i, j | 0 <= i < j < |t| + 1
      ensures ([h] + t)[i] >= ([h] + t)[j]
    {
      if i == 0 {
        assert t[0] >= t[j - 1];
      }
    }
  }

  /** Inserts `x` into a descending sequence. */
  function InsertDescending(x: real, s: seq<real>): (r: seq<real>)
    requires Descending(s)
    ensures |r| == |s| + 1
    ensures r[0] == x || (s != [] && r[0] == s[0])
    ensures Descending(r)
    ensures multiset(r) == multiset(s) + multiset{x}
    decreases |s|
  {
    if s == [] || x >= s[0] then
      DescendingCons(x, s);
      [x] + s
    else
      var rest := InsertDescending(x, s[1..]);
      assert s == [s[0]] + s[1..];
      DescendingCons(s[0], rest);
      [s[0]] + rest
  }

  /** `list.sort(reverse=True)`. */
  function SortDescending(s: seq<real>): (r: seq<real>)
    ensures Descending(r)
    ensures multiset(r) == multiset(s)
    decreases |s|
  {
    if s == [] then []
    else
      assert s == [s[0]] + s[1..];
      InsertDescending(s[0], SortDescending(s[1..]))
  }

  /** `t` lies between the two limits, whichever is larger. */
  predicate InLimits(t: real, ymin: real, ymax: real)
  {
    if ymin < ymax then ymin <= t <= ymax else ymax <= t <= ymin
  }

  /** Lines 139-143: the ticks within the limits, each as often as `yticks`
      holds it; upright they keep their order, with the axis upside down (or
      flat) they are sorted from the largest. */
  function TickModeTicks(ymin: real, ymax: real, yticks: seq<real>): (r: seq<real>)
    ensures forall t :: multiset(r)[t] == if InLimits(t, ymin, ymax) then multiset(yticks)[t] else 0
    ensures ymin < ymax ==> IsSubsequence(r, yticks)
    ensures !(ymin < ymax) ==> Descending(r)
  {
    if ymin < ymax then
      WithinIsSubsequence(yticks, ymin, ymax);
      Within(yticks, ymin, ymax)
    else SortDescending(Within(yticks, ymax, ymin))
  }

  /** The vertical alignment of a label. */
  datatype VAlign = Bottom | Center | Top

  /** One `ax.text(x, y, text, verticalalignment=...)` call. */
  datatype Label = Label(x: real, y: real, text: string, vAlign: VAlign)

  /** The vertices given to `ax.plot`. */
  datatype Polyline = Polyline(xs: seq<real>, ys: seq<real>)

  /** What plot_y_axis draws: nothing, or the scale. */
  datatype AxisPlan =
    | Hidden
    | Drawn(epsilon: real, ticks: seq<real>, positions: seq<real>, texts: seq<string>,
            note: Option<Label>, labels: seq<Label>, line: Polyline)

  /** What plot_y_axis needs not to raise: the tick list is not empty in tick
      mode, and values shown in original units have a known transformation. */
  predicate Plottable(req: AxisRequest)
  {
    req.showDataRange.GetOr(true) ==>
      (OriginalUnits(req) ==> req.transform in KnownTransforms) &&
      (req.onlyAtTicks ==> TickModeTicks(req.ymin, req.ymax, req.yticks) != [])
  }

  /** The label text of a tick value. */
  function LabelText(v: real, req: AxisRequest, num: Numerics): string
    requires OriginalUnits(req) ==> req.transform in KnownTransforms
  {
    if OriginalUnits(req) then ValueToStr(Untransform(v, req.transform, req.logPseudocount, num).value, num)
    else ValueToStr(v, num)
  }

  function LabelTexts(vs: seq<real>, req: AxisRequest, num: Numerics): (ts: seq<string>)
    requires OriginalUnits(req) ==> req.transform in KnownTransforms
    ensures |ts| == |vs|
    ensures forall i | 0 <= i < |vs| :: ts[i] == LabelText(vs[i], req, num)
  {
    seq(|vs|, i requires 0 <= i < |vs| => LabelText(vs[i], req, num))
  }

  /** Lines 162-169: the transformation written at mid-height when the labels
      show transformed values. */
  function NoteText(transform: string, pseudocount: real, num: Numerics): string
  {
    if transform == "log1p" then "log(1 + x)"
    else if pseudocount == 0.0 then transform + "(x)"
    else transform + "(" + num.realToStr(pseudocount) + " + x)"
  }

  /** Lines 192-201: the lowest label sits on its line when the first tick is
      within epsilon of `ymin`, and is then moved down by epsilon. */
  function FirstLabel(ymin: real, ymax: real, epsilon: real, tick: real, pos: real, text: string): Label
  {
    if (ymin < ymax && tick <= ymin + epsilon) || (ymin > ymax && tick >= ymin + epsilon)
    then Label(-0.2, pos - epsilon, text, Bottom)
    else Label(-0.2, pos, text, Center)
  }

  /** Lines 213-220: the highest label hangs from its line when the last tick
      is within epsilon of `ymax`. */
  function LastLabel(ymin: real, ymax: real, epsilon: real, tick: real, pos: real, text: string): Label
  {
    if (ymin < ymax && tick >= ymax - epsilon) || (ymin > ymax && tick <= ymax - epsilon)
    then Label(-0.2, pos, text, Top)
    else Label(-0.2, pos, text, Center)
  }

  /** Lines 204-207: the labels of the inner ticks, centred. */
  function MiddleLabels(positions: seq<real>, texts: seq<string>): (ls: seq<Label>)
    requires |positions| == |texts|
    ensures |ls| == |positions|
    ensures forall i | 0 <= i < |ls| :: ls[i] == Label(-0.2, positions[i], texts[i], Center)
  {
    seq(|positions|, i requires 0 <= i < |positions| => Label(-0.2, positions[i], texts[i], Center))
  }

  /** The vertices for the inner ticks: a dent to the left at each. */
  function MiddleSegments(ticks: seq<real>): (p: Polyline)
    ensures |p.xs| == |p.ys| == 3 * |ticks|
    decreases |ticks|
  {
    if ticks == [] then Polyline([], [])
    else
      var rest := MiddleSegments(ticks[1..]);
      Polyline([0.5, 0.0, 0.5] + rest.xs, [ticks[0], ticks[0], ticks[0]] + rest.ys)
  }

  /** The inner ticks of a tick list: all but the first and the last. */
  function Inner<T>(s: seq<T>): seq<T>
  {
    if |s| >= 2 then s[1..|s| - 1] else []
  }

  /** Lines 202-222: the bracket-shaped line through the ticks. */
  function Zigzag(ticks: seq<real>): (p: Polyline)
    requires ticks != []
    ensures |p.xs| == |p.ys| == 3 * |Inner(ticks)| + 4
    ensures p.xs[0] == p.xs[|p.xs| - 1] == 0.0 && p.xs[1] == p.xs[|p.xs| - 2] == 0.5
    ensures p.ys[0] == p.ys[1] == ticks[0]
    ensures p.ys[|p.ys| - 2] == p.ys[|p.ys| - 1] == ticks[|ticks| - 1]
  {
    var n := |ticks|;
    var mid := MiddleSegments(Inner(ticks));
    Polyline([0.0, 0.5] + mid.xs + [0.5, 0.0], [ticks[0], ticks[0]] + mid.ys + [ticks[n - 1], ticks[n - 1]])
  }

  /** The labels in the order they are drawn: the first, the inner ones, the
      last (so a single tick is labelled twice). */
  function TickLabels(ymin: real, ymax: real, epsilon: real, ticks: seq<real>, positions: seq<real>, texts: seq<string>): seq<Label>
    requires ticks != [] && |positions| == |ticks| == |texts|
  {
    var n := |ticks|;
    [FirstLabel(ymin, ymax, epsilon, ticks[0], positions[0], texts[0])]
    + MiddleLabels(Inner(positions), Inner(texts))
    + [LastLabel(ymin, ymax, epsilon, ticks[n - 1], positions[n - 1], texts[n - 1])]
  }

  /** The ticks and the label positions of the three modes (lines 132-188). */
  function TicksAndPositions(req: AxisRequest, epsilon: real): (tp: (seq<real>, seq<real>))
    ensures |tp.0| == |tp.1|
  {
    var ymin := req.ymin;
    var ymax := req.ymax;
    if req.onlyAtTicks then
      var ticks := TickModeTicks(ymin, ymax, req.yticks);
      (ticks, ticks)
    else if !OriginalUnits(req) then
      ([ymin + epsilon, ymax - epsilon], [ymin, ymax])
    else
      var ymid := if ymin * ymax < 0.0 then 0.0 else (ymin + ymax) / 2.0;
      ([ymin + epsilon, ymid, ymax - epsilon], [ymin, ymid, ymax])
  }

  /** plot_y_axis, as the plan of what it draws. */
  function PlotYAxis(req: AxisRequest, num: Numerics): (r: AxisPlan)
    requires Plottable(req)
    ensures r.Hidden? <==> !req.showDataRange.GetOr(true)
    ensures r.Drawn? ==> r.epsilon == (req.ymax - req.ymin) / 100.0
    ensures r.Drawn? ==> |r.ticks| >= 1 && |r.positions| == |r.ticks| == |r.texts|
    ensures r.Drawn? ==> |r.labels| == if |r.ticks| == 1 then 2 else |r.ticks|
    ensures r.Drawn? ==> forall i | 0 <= i < |r.texts| :: r.texts[i] == LabelText(r.positions[i], req, num)
    ensures r.Drawn? && req.onlyAtTicks ==> r.ticks == r.positions == TickModeTicks(req.ymin, req.ymax, req.yticks)
    ensures r.Drawn? ==> r.labels == TickLabels(req.ymin, req.ymax, r.epsilon, r.ticks, r.positions, r.texts)
    ensures r.Drawn? ==> r.line == Zigzag(r.ticks)
  {
    if !req.showDataRange.GetOr(true) then Hidden
    else
      var epsilon := (req.ymax - req.ymin) / 100.0;
      var (ticks, positions) := TicksAndPositions(req, epsilon);
      var texts := LabelTexts(positions, req, num);
      var note := if !req.onlyAtTicks && req.yAxis == "transformed" && req.transform != "no"
        then Some(Label(0.0, (req.ymax + req.ymin) / 2.0, NoteText(req.transform, req.logPseudocount, num), Center))
        else None;
      Drawn(epsilon, ticks, positions, texts, note,
            TickLabels(req.ymin, req.ymax, epsilon, ticks, positions, texts), Zigzag(ticks))
  }

  function Min(a: int, b: int): int
  {
    if a <= b then a else b
  }

  /** The inner dents: three vertices per inner tick, the middle one at x = 0. */
  lemma {:induction false} MiddleClosedForm(m: seq<real>)
    ensures |MiddleSegments(m).xs| == |MiddleSegments(m).ys| == 3 * |m|
    ensures forall k | 0 <= k < 3 * |m| :: MiddleSegments(m).xs[k] == if k % 3 == 1 then 0.0 else 0.5
    ensures forall k | 0 <= k < 3 * |m| :: MiddleSegments(m).ys[k] == m[k / 3]
    decreases |m|
  {
    if m != [] {
      MiddleClosedForm(m[1..]);
      var p := MiddleSegments(m);
      var rest := MiddleSegments(m[1..]);
      forall k | 3 <= k < 3 * |m|
        ensures p.xs[k] == rest.xs[k - 3] && p.ys[k] == rest.ys[k - 3]
        ensures (k - 3) % 3 == k % 3 && (k - 3) / 3 == k / 3 - 1
      {
      }
    }
  }

  /** Index arithmetic for the vertices after the first two. */
  lemma ShiftByTwo(j: nat)
    ensures j % 3 == 1 <==> (j + 2) % 3 == 0
    ensures j / 3 + 1 == (j + 3) / 3
  {
  }

  /** The middle vertices of the line, in closed form. */
  lemma ZigzagMiddleVertex(ticks: seq<real>, k: nat)
    requires ticks != []
    requires |MiddleSegments(Inner(ticks)).xs| == |MiddleSegments(Inner(ticks)).ys| == 3 * |Inner(ticks)|
    requires forall j | 0 <= j < 3 * |Inner(ticks)| :: MiddleSegments(Inner(ticks)).xs[j] == if j % 3 == 1 then 0.0 else 0.5
    requires forall j | 0 <= j < 3 * |Inner(ticks)| :: MiddleSegments(Inner(ticks)).ys[j] == Inner(ticks)[j / 3]
    requires 2 <= k < 2 + 3 * |Inner(ticks)|
    ensures Zigzag(ticks).xs[k] == if k % 3 == 0 then 0.0 else 0.5
    ensures Zigzag(ticks).ys[k] == ticks[(k + 1) / 3]
  {
    var inner := Inner(ticks);
    var mid := MiddleSegments(inner);
    var p := Zigzag(ticks);
    assert p.xs[k] == mid.xs[k - 2] && p.ys[k] == mid.ys[k - 2];
    ShiftByTwo(k - 2);
    assert inner[(k - 2) / 3] == ticks[(k - 2) / 3 + 1];
  }

  /** The last two vertices of the line sit at the last tick. */
  lemma ZigzagLastVertices(ticks: seq<real>, k: nat)
    requires ticks != []
    requires |MiddleSegments(Inner(ticks)).xs| == |MiddleSegments(Inner(ticks)).ys| == 3 * |Inner(ticks)|
    requires 2 + 3 * |Inner(ticks)| <= k < |Zigzag(ticks).xs|
    ensures Zigzag(ticks).xs[k] == if k % 3 == 0 then 0.0 else 0.5
    ensures Zigzag(ticks).ys[k] == ticks[Min((k + 1) / 3, |ticks| - 1)]
  {
    var m := 3 * |Inner(ticks)|;
    assert k == 2 + m || k == 3 + m;
  }

  /** One vertex of the line, in closed form. */
  lemma ZigzagVertex(ticks: seq<real>, k: nat)
    requires ticks != []
    requires |MiddleSegments(Inner(ticks)).xs| == |MiddleSegments(Inner(ticks)).ys| == 3 * |Inner(ticks)|
    requires forall j | 0 <= j < 3 * |Inner(ticks)| :: MiddleSegments(Inner(ticks)).xs[j] == if j % 3 == 1 then 0.0 else 0.5
    requires forall j | 0 <= j < 3 * |Inner(ticks)| :: MiddleSegments(Inner(ticks)).ys[j] == Inner(ticks)[j / 3]
    requires k < |Zigzag(ticks).xs|
    ensures Zigzag(ticks).xs[k] == if k % 3 == 0 then 0.0 else 0.5
    ensures Zigzag(ticks).ys[k] == ticks[Min((k + 1) / 3, |ticks| - 1)]
  {
    var m := 3 * |Inner(ticks)|;
    if k >= 2 + m {
      ZigzagLastVertices(ticks, k);
    } else if k >= 2 {
      ZigzagMiddleVertex(ticks, k);
      assert (k + 1) / 3 <= |ticks| - 1;
    }
  }

  /** Lines 202-222 in closed form: the line starts and ends at x = 0, goes
      out to x = 0.5 at every tick and back to 0 at each inner tick, and has
      3n - 2 vertices for n >= 2 ticks (4 for a single tick). */
  lemma ZigzagClosedForm(ticks: seq<real>)
    requires ticks != []
    ensures var p := Zigzag(ticks);
      |p.xs| == |p.ys| == (if |ticks| == 1 then 4 else 3 * |ticks| - 2) &&
      p.xs[0] == 0.0 && p.xs[|p.xs| - 1] == 0.0 &&
      (forall k | 0 <= k < |p.xs| :: p.xs[k] == if k % 3 == 0 then 0.0 else 0.5) &&
      (forall k | 0 <= k < |p.ys| :: p.ys[k] == ticks[Min((k + 1) / 3, |ticks| - 1)])
  {
    MiddleClosedForm(Inner(ticks));
    var p := Zigzag(ticks);
    forall k | 0 <= k < |p.xs|
      ensures p.xs[k] == if k % 3 == 0 then 0.0 else 0.5
      ensures p.ys[k] == ticks[Min((k + 1) / 3, |ticks| - 1)]
    {
      ZigzagVertex(ticks, k);
    }
    ZigzagVertex(ticks, |p.xs| - 1);
  }

  /** Lines 150-161: the linear range mode puts the ticks epsilon inside the
      limits, the labels at the limits, and prints the limits. */
  lemma RangeModeLinear(req: AxisRequest, num: Numerics)
    requires Plottable(req) && req.showDataRange.GetOr(true)
    requires !req.onlyAtTicks && !OriginalUnits(req)
    ensures var r := PlotYAxis(req, num);
      var eps := (req.ymax - req.ymin) / 100.0;
      r.ticks == [req.ymin + eps, req.ymax - eps] &&
      r.positions == [req.ymin, req.ymax] &&
      r.texts == [ValueToStr(req.ymin, num), ValueToStr(req.ymax, num)]
  {
  }

  /** Lines 174-188: in original units a middle tick is added at 0 when the
      limits have opposite signs, at their mean otherwise, and every label
      shows the untransformed value. */
  lemma RangeModeOriginal(req: AxisRequest, num: Numerics)
    requires Plottable(req) && req.showDataRange.GetOr(true)
    requires !req.onlyAtTicks && OriginalUnits(req)
    ensures var r := PlotYAxis(req, num);
      var eps := (req.ymax - req.ymin) / 100.0;
      var ymid := if req.ymin * req.ymax < 0.0 then 0.0 else (req.ymin + req.ymax) / 2.0;
      r.ticks == [req.ymin + eps, ymid, req.ymax - eps] &&
      r.positions == [req.ymin, ymid, req.ymax] &&
      forall i | 0 <= i < 3 ::
        r.texts[i] == ValueToStr(Untransform(r.positions[i], req.transform, req.logPseudocount, num).value, num)
  {
    var r := PlotYAxis(req, num);
    var eps := (req.ymax - req.ymin) / 100.0;
    assert (r.ticks, r.positions) == TicksAndPositions(req, eps);
    forall i | 0 <= i < 3
      ensures r.texts[i] == ValueToStr(Untransform(r.positions[i], req.transform, req.logPseudocount, num).value, num)
    {
      assert r.texts[i] == LabelText(r.positions[i], req, num);
    }
  }

  /** Lines 139-144: tick mode keeps exactly the ticks within the limits;
      upright it keeps their order, upside down (or flat) it sorts them from
      the largest. */
  lemma TickModeSpec(ymin: real, ymax: real, yticks: seq<real>)
    ensures forall t :: t in TickModeTicks(ymin, ymax, yticks) <==> t in yticks && InLimits(t, ymin, ymax)
    ensures ymin < ymax ==> IsSubsequence(TickModeTicks(ymin, ymax, yticks), yticks)
    ensures !(ymin < ymax) ==> Descending(TickModeTicks(ymin, ymax, yticks))
  {
    var r := TickModeTicks(ymin, ymax, yticks);
    forall t
      ensures t in r <==> t in yticks && InLimits(t, ymin, ymax)
    {
      assert t in r <==> t in multiset(r);
      assert t in yticks <==> t in multiset(yticks);
    }
  }

  /** Two descending arrangements of one multiset start with the same value:
      its largest. */
  lemma DescendingHead(a: seq<real>, b: seq<real>)
    requires Descending(a) && Descending(b) && multiset(a) == multiset(b) && a != []
    ensures b != [] && a[0] == b[0]
  {
    assert a[0] in multiset(b);
    var j :| 0 <= j < |b| && b[j] == a[0];
    assert b[0] in multiset(a);
    var i :| 0 <= i < |a| && a[i] == b[0];
    assert b[0] >= b[j] && a[0] >= a[i];
  }

  /** A descending sequence is determined by its multiset. */
  lemma {:induction false} DescendingUnique(a: seq<real>, b: seq<real>)
    requires Descending(a) && Descending(b) && multiset(a) == multiset(b)
    ensures a == b
    decreases |a|
  {
    if a == [] {
      assert |b| == |multiset(b)| == 0;
    } else {
      DescendingHead(a, b);
      assert a == [a[0]] + a[1..] && b == [b[0]] + b[1..];
      assert multiset(a[1..]) == multiset(a) - multiset{a[0]};
      assert multiset(b[1..]) == multiset(b) - multiset{b[0]};
      DescendingUnique(a[1..], b[1..]);
    }
  }

  /** Upside down (or flat), the tick list is the only descending arrangement
      of the ticks within the limits. */
  lemma TickModeOrderUnique(ymin: real, ymax: real, yticks: seq<real>, s: seq<real>)
    requires !(ymin < ymax) && Descending(s)
    requires forall t :: multiset(s)[t] == if InLimits(t, ymin, ymax) then multiset(yticks)[t] else 0
    ensures s == TickModeTicks(ymin, ymax, yticks)
  {
    var r := TickModeTicks(ymin, ymax, yticks);
    assert multiset(s) == multiset(r) by {
      forall t
        ensures multiset(s)[t] == multiset(r)[t]
      {
      }
    }
    DescendingUnique(s, r);
  }

  /** Lines 190-220: in range mode with distinct limits the lowest label sits
      on its line, moved down by epsilon, and the highest hangs from its line. */
  lemma RangeModeAnchors(req: AxisRequest, num: Numerics)
    requires Plottable(req) && req.showDataRange.GetOr(true)
    requires !req.onlyAtTicks && req.ymin != req.ymax
    ensures var r := PlotYAxis(req, num);
      var eps := (req.ymax - req.ymin) / 100.0;
      r.labels[0] == Label(-0.2, req.ymin - eps, r.texts[0], Bottom) &&
      r.labels[|r.labels| - 1] == Label(-0.2, req.ymax, r.texts[|r.texts| - 1], Top)
  {
  }

  /** With equal limits no label sits on or hangs from its line. */
  lemma FlatLabelsCentered(y: real, epsilon: real, ticks: seq<real>, positions: seq<real>, texts: seq<string>)
    requires ticks != [] && |positions| == |ticks| == |texts|
    ensures var ls := TickLabels(y, y, epsilon, ticks, positions, texts);
      forall i | 0 <= i < |ls| :: ls[i].vAlign == Center
  {
    var ls := TickLabels(y, y, epsilon, ticks, positions, texts);
    var mid := MiddleLabels(Inner(positions), Inner(texts));
    forall i | 0 <= i < |ls|
      ensures ls[i].vAlign == Center
    {
      if 0 < i < |ls| - 1 {
        assert ls[i] == mid[i - 1];
      }
    }
  }

  /** With equal limits epsilon is zero and every label is centred on its tick. */
  lemma FlatAxisCentered(req: AxisRequest, num: Numerics)
    requires Plottable(req) && req.showDataRange.GetOr(true)
    requires req.ymin == req.ymax
    ensures var r := PlotYAxis(req, num);
      forall i | 0 <= i < |r.labels| :: r.labels[i].vAlign == Center
  {
    var r := PlotYAxis(req, num);
    FlatLabelsCentered(req.ymin, r.epsilon, r.ticks, r.positions, r.texts);
  }

  /** Every label but the first is drawn at its label position with its
      text; the inner ones are centred. */
  lemma LabelsFollowTicks(ymin: real, ymax: real, epsilon: real, ticks: seq<real>, positions: seq<real>, texts: seq<string>)
    requires |ticks| >= 2 && |positions| == |ticks| == |texts|
    ensures var ls := TickLabels(ymin, ymax, epsilon, ticks, positions, texts);
      |ls| == |ticks| &&
      forall i | 0 <= i < |ticks| ::
        ls[i].text == texts[i] && ls[i].x == -0.2 &&
        (0 < i ==> ls[i].y == positions[i]) &&
        (0 < i < |ticks| - 1 ==> ls[i].vAlign == Center)
  {
    var n := |ticks|;
    var ls := TickLabels(ymin, ymax, epsilon, ticks, positions, texts);
    var mid := MiddleLabels(Inner(positions), Inner(texts));
    forall i | 0 < i < n - 1
      ensures ls[i] == Label(-0.2, positions[i], texts[i], Center)
    {
      assert ls[i] == mid[i - 1];
    }
  }

  /** The transformation note appears only in range mode with transformed
      values, and reads `log(1 + x)` for `log1p`, `t(x)` for another
      transformation `t` without pseudocount, and `t(p + x)` with pseudocount `p`. */
  lemma NoteShown(req: AxisRequest, num: Numerics)
    requires Plottable(req) && req.showDataRange.GetOr(true)
    ensures PlotYAxis(req, num).note.Some? <==>
      !req.onlyAtTicks && req.yAxis == "transformed" && req.transform != "no"
    ensures PlotYAxis(req, num).note.Some? && req.transform == "log1p" ==>
      PlotYAxis(req, num).note.value == Label(0.0, (req.ymax + req.ymin) / 2.0, "log(1 + x)", Center)
    ensures PlotYAxis(req, num).note.Some? && req.transform != "log1p" && req.logPseudocount == 0.0 ==>
      PlotYAxis(req, num).note.value == Label(0.0, (req.ymax + req.ymin) / 2.0, req.transform + "(x)", Center)
    ensures PlotYAxis(req, num).note.Some? && req.transform != "log1p" && req.logPseudocount != 0.0 ==>
      PlotYAxis(req, num).note.value ==
        Label(0.0, (req.ymax + req.ymin) / 2.0, req.transform + "(" + num.realToStr(req.logPseudocount) + " + x)", Center)
  {
  }

  /** Limits 0 and 10 without transformation: ticks at 0.1 and 9.9, labels "0" and "10". */
  lemma ZeroToTen(req: AxisRequest, num: Numerics)
    requires req == AxisRequest(None, 0.0, 10.0, [], "no", 0.0, DefaultYAxis, false)
    ensures Plottable(req)
    ensures PlotYAxis(req, num).epsilon == 0.1
    ensures PlotYAxis(req, num).ticks == [0.1, 9.9]
    ensures PlotYAxis(req, num).texts == ["0", "10"]
  {
    assert IntToDecimal(0) == "0";
    assert IntToDecimal(10) == NatToDecimal(1) + [DigitChar(0)] == "10";
  }
}

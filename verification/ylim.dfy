/** GenomeTrack.adjust_ylim: the y limits a track sets on its axis. The
    forward transformation of `utilities` is abstract. */
module YLim {
  import opened Wrappers

  /** The properties adjust_ylim reads; `None` is a missing key. */
  datatype LimitSettings = LimitSettings(
    maxValue: Option<real>,
    minValue: Option<real>,
    transform: Option<string>,
    logPseudocount: Option<real>,
    orientation: Option<string>)

  /** `utilities.transform` applied to one value, with the transformation,
      the pseudocount and the name of the limit (`'ymin'` or `'ymax'`). */
  type ForwardTransform = (real, string, real, string) -> real

  /** The arguments of `axis.set_ylim(bottom, top)`. */
  datatype YRange = YRange(bottom: real, top: real)

  /** One limit: the plot's own when the user gave none, the user's
      transformed into the plot's scale otherwise. */
  function ChooseLimit(user: Option<real>, plot: real, s: LimitSettings, fwd: ForwardTransform, name: string): real
  {
    match user
    case None => plot
    case Some(v) => fwd(v, s.transform.GetOr("no"), s.logPseudocount.GetOr(0.0), name)
  }

  predicate Inverted(s: LimitSettings)
  {
    s.orientation == Some("inverted")
  }

  /** adjust_ylim (lines 499-519). */
  function AdjustYlim(s: LimitSettings, plotYmin: real, plotYmax: real, fwd: ForwardTransform): YRange
  {
    var ymax := ChooseLimit(s.maxValue, plotYmax, s, fwd, "ymax");
    var ymin := ChooseLimit(s.minValue, plotYmin, s, fwd, "ymin");
    if Inverted(s) then YRange(ymax, ymin) else YRange(ymin, ymax)
  }

  /** Without user limits the plot's own limits are kept (swapped when inverted). */
  lemma UnsetKeepsPlotLimits(s: LimitSettings, plotYmin: real, plotYmax: real, fwd: ForwardTransform)
    requires s.minValue.None? && s.maxValue.None?
    ensures AdjustYlim(s, plotYmin, plotYmax, fwd) ==
      if Inverted(s) then YRange(plotYmax, plotYmin) else YRange(plotYmin, plotYmax)
  {
  }

  /** A user limit is transformed with the track's transformation, `'no'` and
      a pseudocount of 0 when those are not set, and lands at the bottom for
      the minimum and at the top for the maximum unless the track is inverted;
      an unset limit keeps the plot's. */
  lemma UserLimitTransformed(s: LimitSettings, plotYmin: real, plotYmax: real, fwd: ForwardTransform)
    ensures var r := AdjustYlim(s, plotYmin, plotYmax, fwd);
      (if Inverted(s) then r.top else r.bottom) ==
        if s.minValue.Some? then fwd(s.minValue.value, s.transform.GetOr("no"), s.logPseudocount.GetOr(0.0), "ymin") else plotYmin
    ensures var r := AdjustYlim(s, plotYmin, plotYmax, fwd);
      (if Inverted(s) then r.bottom else r.top) ==
        if s.maxValue.Some? then fwd(s.maxValue.value, s.transform.GetOr("no"), s.logPseudocount.GetOr(0.0), "ymax") else plotYmax
    ensures s.minValue.Some? && s.transform.None? && s.logPseudocount.None? && !Inverted(s) ==>
      AdjustYlim(s, plotYmin, plotYmax, fwd).bottom == fwd(s.minValue.value, "no", 0.0, "ymin")
  {
  }

  /** `orientation = inverted` exactly swaps the limits; any other
      orientation behaves like none. */
  lemma InvertedSwaps(s: LimitSettings, plotYmin: real, plotYmax: real, fwd: ForwardTransform)
    ensures var upright := AdjustYlim(s.(orientation := None), plotYmin, plotYmax, fwd);
      AdjustYlim(s, plotYmin, plotYmax, fwd) ==
        if Inverted(s) then YRange(upright.top, upright.bottom) else upright
  {
  }

  /** Each limit depends only on its own setting: the user's minimum never
      moves the end the maximum sets, and the other way round, upright or
      inverted. */
  lemma LimitsIndependent(s: LimitSettings, plotYmin: real, plotYmax: real, fwd: ForwardTransform,
                          newMin: Option<real>, newMax: Option<real>)
    ensures var r := AdjustYlim(s, plotYmin, plotYmax, fwd);
      var r1 := AdjustYlim(s.(minValue := newMin), plotYmin, plotYmax, fwd);
      if Inverted(s) then r1.bottom == r.bottom else r1.top == r.top
    ensures var r := AdjustYlim(s, plotYmin, plotYmax, fwd);
      var r2 := AdjustYlim(s.(maxValue := newMax), plotYmin, plotYmax, fwd);
      if Inverted(s) then r2.top == r.top else r2.bottom == r.bottom
  {
  }
}

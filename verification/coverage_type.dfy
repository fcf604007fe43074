/** The `type` property of coverage tracks (bedgraph, bigwig, ...):
    `<plot type>` or `<plot type>:<size>` (GenomeTrack.process_type_for_coverage_track). */
module CoverageType {
  import opened Wrappers
  import opened Strings

  const DefaultPlotType: string := "fill"
  const PlotTypes: set<string> := {"line", "points", "fill"}

  /** The warnings the procedure logs. */
  datatype Diagnostic =
    | SizeNotANumber(size: string)   // lines 265-270
    | UnknownPlotType                // lines 274-277

  /** The plot type and the optional size; `size == None` is Python's `None`. */
  datatype CoverageStyle = CoverageStyle(plotType: string, size: Option<real>, warnings: seq<Diagnostic>)

  /** The tuple unpack at line 262 raises unless a colon past index 0 splits
      the value in exactly two parts. */
  predicate Unpackable(t: string)
  {
    Find(t, ':') > 0 ==> |Split(t, ':')| == 2
  }

  /** The plot type the user asked for: the part before the colon when a
      colon sits past index 0, the whole value otherwise. */
  function Requested(t: string): string
  {
    if Find(t, ':') > 0 then Split(t, ':')[0] else t
  }

  /** process_type_for_coverage_track. `parseFloat` is Python's `float()` on
      a string, `None` where it raises `ValueError`. */
  function ProcessCoverageType(t: string, parseFloat: string -> Option<real>): (r: CoverageStyle)
    requires Unpackable(t)
    ensures r.plotType in PlotTypes
    ensures r.plotType == Requested(t) || (r.plotType == DefaultPlotType && Requested(t) !in PlotTypes)
    ensures r.size.Some? <==> Find(t, ':') > 0 && parseFloat(Split(t, ':')[1]).Some?
    ensures r.size.Some? ==> r.size == parseFloat(Split(t, ':')[1])
    ensures r.warnings == [] <==> Requested(t) in PlotTypes && (Find(t, ':') > 0 ==> r.size.Some?)
  {
    if Find(t, ':') > 0 then
      var parts := Split(t, ':');
      var size := parseFloat(parts[1]);
      var sizeWarnings := if size.None? then [SizeNotANumber(parts[1])] else [];
      if parts[0] in PlotTypes then CoverageStyle(parts[0], size, sizeWarnings)
      else CoverageStyle(DefaultPlotType, size, sizeWarnings + [UnknownPlotType])
    else if t in PlotTypes then CoverageStyle(t, None, [])
    else CoverageStyle(DefaultPlotType, None, [UnknownPlotType])
  }

  /** A bare plot type is kept, with no size and no warning. */
  lemma BarePlotType(p: string, parseFloat: string -> Option<real>)
    requires p in PlotTypes
    ensures Unpackable(p)
    ensures ProcessCoverageType(p, parseFloat) == CoverageStyle(p, None, [])
  {
    assert ':' !in p;
  }

  /** `<plot type>:<size>` round-trips: the plot type and the parsed size come back. */
  lemma PlotTypeWithSize(p: string, s: string, parseFloat: string -> Option<real>)
    requires p in PlotTypes && ':' !in s
    ensures Unpackable(p + ":" + s)
    ensures ProcessCoverageType(p + ":" + s, parseFloat) == CoverageStyle(p, parseFloat(s), if parseFloat(s).None? then [SizeNotANumber(s)] else [])
  {
    var t := p + ":" + s;
    assert ':' !in p && p != [];
    assert t == Join([p, s], ':');
    SplitJoin([p, s], ':');
    FindPastPrefix(p, ":" + s, ':');
    assert t == p + (":" + s);
  }

  /** A colon at index 0 does not split: the whole value is taken as the plot
      type, which is not one of the three, so the default is used without size. */
  lemma LeadingColon(s: string, parseFloat: string -> Option<real>)
    ensures Unpackable(":" + s)
    ensures ProcessCoverageType(":" + s, parseFloat) == CoverageStyle(DefaultPlotType, None, [UnknownPlotType])
  {
    assert Find(":" + s, ':') == 0;
  }
}

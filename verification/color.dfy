/** GenomeTrack.process_color: turning the text of a colour property into a
    solid colour or a colormap. matplotlib is abstract: whether a value is
    colour-like, which names are registered colormaps, and whether a list of
    colours makes a colormap are fields of `Matplotlib`; Python's `float()`
    is a partial parser. */
module Color {
  import opened Wrappers
  import opened Strings
  import opened ColorSyntax

  /** A value the property can hold: text (a colour name, a colormap name, a
      default), an (r, g, b) triple of floats, or the colormap built from a
      list of colours. */
  datatype ColorValue =
    | Text(text: string)
    | Triple(r: real, g: real, b: real)
    | Custom(colors: seq<ColorValue>)

  /** The foreign primitives process_color relies on. */
  datatype Matplotlib = Matplotlib(
    isColorLike: ColorValue -> bool,        // mc.is_color_like
    isColormapName: string -> bool,         // membership in dir(plt.cm)
    fromListAccepts: seq<ColorValue> -> bool, // from_list does not raise ValueError
    parseFloat: string -> Option<real>)     // float(), None where it raises ValueError

  /** The call's keyword arguments. */
  datatype ColorOptions = ColorOptions(
    colormapPossible: bool,
    bedRgbPossible: bool,
    colormapOnly: bool,
    defaultValueIsColormap: bool)

  /** Why a bracketed list did not give a colormap (the text added to the warning). */
  datatype ListProblem =
    | NoColorBetweenBrackets   // "there is no color between brackets"
    | BadTupleInList           // "some colors starting with ( ... are not formatted (r,g,b) ..."
    | FloatConversion          // "some (r,g,b) values of the list could not be converted to float"
    | NotAColormap             // "the list of color could not be converted to colormap"

  /** The warnings process_color logs. */
  datatype ColorWarning =
    | TupleFloatError                                // lines 309-316
    | TupleNotColor                                  // lines 320-327
    | TupleNotFormatted                              // lines 328-336
    | NotValid                                       // lines 339-346
    | NeitherColorNorColormap(problem: Option<ListProblem>) // lines 396-403
    | NoColormap                                     // lines 405-413

  /** The property's new value, the returned flag, and the warnings. */
  datatype ColorOutcome = ColorOutcome(stored: ColorValue, isColormap: bool, warnings: seq<ColorWarning>)

  /** A solid-colour candidate (lines 300-336) and the warnings logged on the way. */
  datatype Solid = Solid(color: Option<ColorValue>, warnings: seq<ColorWarning>)

  /** A colormap candidate (lines 350-392) and the reason a list failed. */
  datatype MapCandidate = MapCandidate(colormap: Option<ColorValue>, problem: Option<ListProblem>)

  function NotSpace(c: char): bool
  {
    c != ' '
  }

  /** `re.sub(" |'|\"", "", ...)` keeps every other character. */
  function KeptInList(c: char): bool
  {
    c != ' ' && c != '\'' && c != '"'
  }

  /** The three floats of a `color_tuple` match, if `float()` accepts them all. */
  function ParseTriple(groups: seq<string>, env: Matplotlib): (t: Option<ColorValue>)
    requires |groups| == 3
    ensures t.Some? <==> forall i | 0 <= i < 3 :: env.parseFloat(groups[i]).Some?
    ensures t.Some? ==> t.value.Triple?
  {
    var a := env.parseFloat(groups[0]);
    var b := env.parseFloat(groups[1]);
    var c := env.parseFloat(groups[2]);
    if a.Some? && b.Some? && c.Some? then Some(Triple(a.value, b.value, c.value)) else None
  }

  /** The triple a `(`-value denotes once spaces are removed: None when it does
      not match `color_tuple` or `float()` rejects a group (lines 302-308). */
  function TripleOf(v: string, env: Matplotlib): (t: Option<ColorValue>)
    ensures t.Some? ==> t.value.Triple? && MatchColorTuple(Filter(v, NotSpace)).Some?
  {
    match MatchColorTuple(Filter(v, NotSpace))
    case None => None
    case Some(groups) => ParseTriple(groups, env)
  }

  /** Lines 300-336: a colour-like value is kept; a value starting with `(`
      is read as an (r, g, b) triple once spaces are removed, falling back to
      the default on every failure; anything else gives no solid colour. */
  function SolidColor(v: string, default: string, env: Matplotlib): (s: Solid)
    requires v != [] || env.isColorLike(Text(v))
    ensures s.warnings != [] ==> s.color == Some(Text(default))
    ensures s.color.Some? ==> env.isColorLike(s.color.value) || s.color == Some(Text(default))
    ensures s.color.None? <==> !env.isColorLike(Text(v)) && v[0] != '('
    // lines 300-301: a colour-like value is kept as it is
    ensures env.isColorLike(Text(v)) ==> s == Solid(Some(Text(v)), [])
    // lines 318-319: a colour-like triple is kept, without a warning
    ensures !env.isColorLike(Text(v)) && v[0] == '(' && TripleOf(v, env).Some? && env.isColorLike(TripleOf(v, env).value) ==>
      s == Solid(TripleOf(v, env), [])
    // lines 309-336: any other `(`-value gives the default and one warning
    ensures !env.isColorLike(Text(v)) && v[0] == '(' && !(TripleOf(v, env).Some? && env.isColorLike(TripleOf(v, env).value)) ==>
      s.color == Some(Text(default)) && |s.warnings| == 1
    // lines 328-336: a `(`-value that does not match `color_tuple`
    ensures !env.isColorLike(Text(v)) && v[0] == '(' && MatchColorTuple(Filter(v, NotSpace)).None? ==>
      s == Solid(Some(Text(default)), [TupleNotFormatted])
    // lines 309-316: a group `float()` rejects
    ensures !env.isColorLike(Text(v)) && v[0] == '(' && MatchColorTuple(Filter(v, NotSpace)).Some? && TripleOf(v, env).None? ==>
      s == Solid(Some(Text(default)), [TupleFloatError])
    // lines 320-327: a triple that is not colour-like
    ensures !env.isColorLike(Text(v)) && v[0] == '(' && TripleOf(v, env).Some? && !env.isColorLike(TripleOf(v, env).value) ==>
      s == Solid(Some(Text(default)), [TupleNotColor])
    ensures s.color.Some? ==>
      (s.color.value == Text(v) && env.isColorLike(Text(v))) ||
      (env.isColorLike(s.color.value) && MatchColorTuple(Filter(v, NotSpace)).Some? &&
       ParseTriple(MatchColorTuple(Filter(v, NotSpace)).value, env) == s.color) ||
      s.color.value == Text(default)
  {
    if env.isColorLike(Text(v)) then Solid(Some(Text(v)), [])
    else if v[0] == '(' then
      match MatchColorTuple(Filter(v, NotSpace))
      case None => Solid(Some(Text(default)), [TupleNotFormatted])
      case Some(groups) =>
        match ParseTriple(groups, env)
        case None => Solid(Some(Text(default)), [TupleFloatError])
        case Some(t) =>
          if env.isColorLike(t) then Solid(Some(t), []) else Solid(Some(Text(default)), [TupleNotColor])
    else Solid(None, [])
  }

  predicate StartsGroup(e: string)
  {
    |e| > 0 && e[0] == '('
  }

  /** Every list element starting with `(` matches `color_tuple` (lines 369-370). */
  predicate TuplesMatch(elements: seq<string>)
  {
    forall i | 0 <= i < |elements| && StartsGroup(elements[i]) :: MatchColorTuple(elements[i]).Some?
  }

  /** One list element as a colour: a triple for a `(`-element, the text otherwise. */
  function ElementColor(e: string, env: Matplotlib): Option<ColorValue>
    requires StartsGroup(e) ==> MatchColorTuple(e).Some?
  {
    if StartsGroup(e) then ParseTriple(MatchColorTuple(e).value, env) else Some(Text(e))
  }

  /** Lines 372-376: every element converted, or None at the first failure. */
  function ElementColors(elements: seq<string>, env: Matplotlib): (cs: Option<seq<ColorValue>>)
    requires TuplesMatch(elements)
    ensures cs.Some? ==> |cs.value| == |elements|
    ensures cs.Some? <==> forall i | 0 <= i < |elements| :: ElementColor(elements[i], env).Some?
    ensures cs.Some? ==> forall i | 0 <= i < |elements| :: cs.value[i] == ElementColor(elements[i], env).value
    decreases |elements|
  {
    if elements == [] then Some([])
    else
      assert TuplesMatch(elements[1..]) by {
        forall i | 0 <= i < |elements[1..]| && StartsGroup(elements[1..][i])
          ensures MatchColorTuple(elements[1..][i]).Some?
        {
          assert elements[1..][i] == elements[i + 1];
        }
      }
      match ElementColor(elements[0], env)
      case None => None
      case Some(c) =>
        match ElementColors(elements[1..], env)
        case None => None
        case Some(rest) => Some([c] + rest)
  }

  /** What a colormap can be: a registered name or a list matplotlib accepted. */
  predicate IsColormap(c: ColorValue, env: Matplotlib)
  {
    (c.Text? && env.isColormapName(c.text)) || (c.Custom? && env.fromListAccepts(c.colors))
  }

  /** Lines 378-382: the colormap of converted elements, when from_list accepts them. */
  function BuildColormap(elements: seq<string>, env: Matplotlib): (m: MapCandidate)
    requires TuplesMatch(elements)
    ensures m.colormap.Some? ==> m.problem.None? && m.colormap.value.Custom? && env.fromListAccepts(m.colormap.value.colors)
    ensures m.colormap.None? <==> m.problem == Some(FloatConversion) || m.problem == Some(NotAColormap)
    ensures m.problem == Some(FloatConversion) <==> exists i | 0 <= i < |elements| :: ElementColor(elements[i], env).None?
    // lines 379-381: the colours `from_list` accepts become the colormap
    ensures ElementColors(elements, env).Some? && env.fromListAccepts(ElementColors(elements, env).value) ==>
      m == MapCandidate(Some(Custom(ElementColors(elements, env).value)), None)
    // and only those: a built colormap is made of the element colours
    ensures m.colormap.Some? ==>
      ElementColors(elements, env).Some? && m.colormap.value == Custom(ElementColors(elements, env).value)
    // lines 381-382: colours `from_list` rejects give no colormap
    ensures ElementColors(elements, env).Some? && !env.fromListAccepts(ElementColors(elements, env).value) ==>
      m == MapCandidate(None, Some(NotAColormap))
  {
    match ElementColors(elements, env)
    case None => MapCandidate(None, Some(FloatConversion))
    case Some(colors) =>
      if env.fromListAccepts(colors) then MapCandidate(Some(Custom(colors)), None)
      else MapCandidate(None, Some(NotAColormap))
  }

  /** Lines 366-387 as written: `findall` never returns None, so the test at
      line 367 always passes and its else branch is dead; a `(`-element that
      fails `color_tuple` is reported as "there is no color between brackets". */
  function ListCandidateAsWritten(elements: seq<string>, env: Matplotlib): (m: MapCandidate)
    ensures m.problem != Some(BadTupleInList)
    ensures m.problem == Some(NoColorBetweenBrackets) <==> !TuplesMatch(elements)
    ensures elements == [] ==> m.problem != Some(NoColorBetweenBrackets)
    ensures m.colormap.Some? ==> m.problem.None? && TuplesMatch(elements) && IsColormap(m.colormap.value, env)
    ensures m.colormap.None? ==> m.problem.Some?
  {
    if TuplesMatch(elements) then BuildColormap(elements, env)
    else MapCandidate(None, Some(NoColorBetweenBrackets))
  }

  /** Lines 366-387 with the two messages where they evidently belong: an
      empty list has no colour between the brackets, a badly formatted
      `(`-element is reported as such. */
  function ListCandidate(elements: seq<string>, env: Matplotlib): (m: MapCandidate)
    ensures m.problem == Some(NoColorBetweenBrackets) <==> elements == []
    ensures m.problem == Some(BadTupleInList) <==> elements != [] && !TuplesMatch(elements)
    ensures m.colormap.Some? ==> m.problem.None? && TuplesMatch(elements) && elements != [] && IsColormap(m.colormap.value, env)
    ensures m.colormap.None? ==> m.problem.Some?
  {
    if elements == [] then MapCandidate(None, Some(NoColorBetweenBrackets))
    else if !TuplesMatch(elements) then MapCandidate(None, Some(BadTupleInList))
    else BuildColormap(elements, env)
  }

  /** The elements of a bracketed list `[...]`: quotes and spaces removed, then
      split on commas outside parentheses. */
  function ListElements(v: string): seq<string>
    requires |v| >= 2
  {
    Blocks(Filter(v[1..|v| - 1], KeptInList))
  }

  /** `[` ... `]`: the value is read as a list of colours. */
  predicate BracketedList(v: string)
  {
    |v| >= 2 && v[0] == '[' && v[|v| - 1] == ']'
  }

  /** Lines 353-392 as written: with no solid colour, a bracketed list may give
      a custom colormap and any other text not starting with `[` may name a
      registered colormap. */
  function ColormapCandidate(v: string, env: Matplotlib): (m: MapCandidate)
    requires v != []
    ensures m.colormap.Some? ==> IsColormap(m.colormap.value, env) && m.problem.None?
    ensures v[0] != '[' ==> m.problem.None? && (m.colormap.Some? <==> env.isColormapName(v))
    // lines 391-392: a registered name is kept as it is
    ensures v[0] != '[' && env.isColormapName(v) ==> m == MapCandidate(Some(Text(v)), None)
    ensures v[0] == '[' && !BracketedList(v) ==> m == MapCandidate(None, None)
    ensures BracketedList(v) ==> m == ListCandidateAsWritten(ListElements(v), env)
    ensures m.problem != Some(BadTupleInList)
  {
    if v[0] == '[' then
      if v[|v| - 1] == ']' then ListCandidateAsWritten(ListElements(v), env)
      else MapCandidate(None, None)
    else if env.isColormapName(v) then MapCandidate(Some(Text(v)), None)
    else MapCandidate(None, None)
  }

  /** Lines 353-392 with the corrected list branch. */
  function ColormapCandidateCorrected(v: string, env: Matplotlib): (m: MapCandidate)
    requires v != []
    ensures m.colormap.Some? ==> IsColormap(m.colormap.value, env) && m.problem.None?
    ensures BracketedList(v) ==> m == ListCandidate(ListElements(v), env)
    ensures !BracketedList(v) ==> m == ColormapCandidate(v, env)
  {
    if BracketedList(v) then ListCandidate(ListElements(v), env) else ColormapCandidate(v, env)
  }

  /** Python's precondition: `v[0]` is read unless the value is colour-like. */
  predicate Indexable(v: string, env: Matplotlib)
  {
    v != [] || env.isColorLike(Text(v))
  }

  /** Lines 338-422 once the candidates are known: the solid colour, and the
      colormap candidate (empty unless colormaps are possible and no solid
      colour was found). */
  function Resolve(solid: Solid, candidate: MapCandidate, default: string, opts: ColorOptions): (r: ColorOutcome)
    requires solid.color.Some? ==> candidate == MapCandidate(None, None)
    ensures !opts.colormapPossible ==> !r.isColormap && r.stored == solid.color.GetOr(Text(default))
    ensures r.isColormap ==> r.stored == candidate.colormap.GetOr(Text(default))
    ensures !r.isColormap ==> r.stored == solid.color.GetOr(Text(default))
    ensures |r.warnings| >= |solid.warnings| && r.warnings[..|solid.warnings|] == solid.warnings
  {
    if !opts.colormapPossible then
      match solid.color
      case None => ColorOutcome(Text(default), false, solid.warnings + [NotValid])
      case Some(c) => ColorOutcome(c, false, solid.warnings)
    else if solid.color.None? && candidate.colormap.None? then
      ColorOutcome(Text(default), opts.defaultValueIsColormap, solid.warnings + [NeitherColorNorColormap(candidate.problem)])
    else if opts.colormapOnly then
      match candidate.colormap
      case None => ColorOutcome(Text(default), true, solid.warnings + [NoColormap])
      case Some(m) => ColorOutcome(m, true, solid.warnings)
    else if solid.color.Some? then ColorOutcome(solid.color.value, false, solid.warnings)
    else ColorOutcome(candidate.colormap.value, true, solid.warnings)
  }

  /** The value reaches the list branch (lines 353-366): colormaps are
      possible, it is not a kept `bed_rgb`, no solid colour was found, and it
      is a bracketed list. */
  predicate ListRead(v: string, default: string, opts: ColorOptions, env: Matplotlib)
    requires Indexable(v, env)
  {
    opts.colormapPossible && !(opts.bedRgbPossible && v == "bed_rgb") &&
    SolidColor(v, default, env).color.None? && BracketedList(v)
  }

  /** process_color, as written. */
  function ProcessColor(v: string, default: string, opts: ColorOptions, env: Matplotlib): (r: ColorOutcome)
    requires Indexable(v, env)
    // lines 298-299: `bed_rgb` is left alone where allowed
    ensures opts.bedRgbPossible && v == "bed_rgb" ==> r == ColorOutcome(Text(v), false, [])
    // lines 338-348: without colormaps the result is a colour, or the default
    ensures !opts.colormapPossible ==>
      !r.isColormap && (env.isColorLike(r.stored) || r.stored == Text(default) || (opts.bedRgbPossible && v == "bed_rgb"))
    // lines 396-422: a colormap result is a colormap, or the default
    ensures r.isColormap ==> IsColormap(r.stored, env) || r.stored == Text(default)
    ensures r.warnings != [] ==> r.stored == Text(default)
  {
    if opts.bedRgbPossible && v == "bed_rgb" then ColorOutcome(Text(v), false, [])
    else
      var solid := SolidColor(v, default, env);
      Resolve(solid, if opts.colormapPossible && solid.color.None? then ColormapCandidate(v, env) else MapCandidate(None, None), default, opts)
  }

  /** process_color with the corrected list branch: it stores the same value
      and returns the same flag as the code as written except on an empty
      list, and a list with a badly formatted `(`-element is reported as such. */
  function ProcessColorCorrected(v: string, default: string, opts: ColorOptions, env: Matplotlib): (r: ColorOutcome)
    requires Indexable(v, env)
    ensures r.isColormap ==> IsColormap(r.stored, env) || r.stored == Text(default)
    ensures r.warnings != [] ==> r.stored == Text(default)
    ensures ListRead(v, default, opts, env) ==>
      (NeitherColorNorColormap(Some(BadTupleInList)) in r.warnings <==> ListElements(v) != [] && !TuplesMatch(ListElements(v)))
  {
    if opts.bedRgbPossible && v == "bed_rgb" then ColorOutcome(Text(v), false, [])
    else
      var solid := SolidColor(v, default, env);
      Resolve(solid, if opts.colormapPossible && solid.color.None? then ColormapCandidateCorrected(v, env) else MapCandidate(None, None), default, opts)
  }

  /** Lines 338-348: without colormaps the result is never a colormap, and is
      the value itself when colour-like, the triple read from it, or the default. */
  lemma SolidOnly(v: string, default: string, opts: ColorOptions, env: Matplotlib)
    requires Indexable(v, env) && !opts.colormapPossible
    requires !(opts.bedRgbPossible && v == "bed_rgb")
    ensures var r := ProcessColor(v, default, opts, env);
      !r.isColormap &&
      ((r.stored == Text(v) && env.isColorLike(Text(v))) ||
       (env.isColorLike(r.stored) && r.stored.Triple? && MatchColorTuple(Filter(v, NotSpace)).Some?) ||
       r.stored == Text(default))
  {
  }

  /** Lines 396-403: when neither a colour nor a colormap was found, the
      property becomes the default and the result is `default_value_is_colormap`. */
  lemma NeitherResolved(v: string, default: string, opts: ColorOptions, env: Matplotlib)
    requires Indexable(v, env) && opts.colormapPossible
    requires !(opts.bedRgbPossible && v == "bed_rgb")
    requires SolidColor(v, default, env).color.None?
    requires ColormapCandidate(v, env).colormap.None?
    ensures ProcessColor(v, default, opts, env).stored == Text(default)
    ensures ProcessColor(v, default, opts, env).isColormap == opts.defaultValueIsColormap
  {
  }

  /** Lines 404-415: with `colormap_only`, a resolved value always returns
      True, keeping the colormap or substituting the default for a solid colour. */
  lemma ColormapOnlyTrue(v: string, default: string, opts: ColorOptions, env: Matplotlib)
    requires Indexable(v, env) && opts.colormapPossible && opts.colormapOnly
    requires !(opts.bedRgbPossible && v == "bed_rgb")
    requires SolidColor(v, default, env).color.Some? || ColormapCandidate(v, env).colormap.Some?
    ensures var r := ProcessColor(v, default, opts, env);
      r.isColormap && (IsColormap(r.stored, env) || r.stored == Text(default))
    ensures SolidColor(v, default, env).color.Some? ==> ProcessColor(v, default, opts, env).stored == Text(default)
  {
  }

  /** Lines 416-422: otherwise a solid colour wins and returns False, and a
      colormap is stored only when no solid colour was found, returning True. */
  lemma SolidBeforeColormap(v: string, default: string, opts: ColorOptions, env: Matplotlib)
    requires Indexable(v, env) && opts.colormapPossible && !opts.colormapOnly
    requires !(opts.bedRgbPossible && v == "bed_rgb")
    ensures var r := ProcessColor(v, default, opts, env);
      var solid := SolidColor(v, default, env);
      (solid.color.Some? ==> r.stored == solid.color.value && !r.isColormap) &&
      (solid.color.None? && ColormapCandidate(v, env).colormap.Some? ==>
         r.stored == ColormapCandidate(v, env).colormap.value && r.isColormap && IsColormap(r.stored, env))
  {
  }

  /** Lines 369-384: a list whose `(`-element fails `color_tuple` never yields
      a custom colormap, however the message reads. */
  lemma BadTupleNoColormap(v: string, env: Matplotlib)
    requires |v| >= 2 && v[0] == '[' && v[|v| - 1] == ']'
    requires exists i | 0 <= i < |ListElements(v)| :: StartsGroup(ListElements(v)[i]) && MatchColorTuple(ListElements(v)[i]).None?
    ensures ColormapCandidate(v, env).colormap.None?
    ensures ColormapCandidateCorrected(v, env).colormap.None?
  {
  }

  /** Lines 300-301 and 416-418: a colour-like value is stored as it is and
      returns False, unless only a colormap will do. */
  lemma ColorLikeKept(v: string, default: string, opts: ColorOptions, env: Matplotlib)
    requires env.isColorLike(Text(v)) && !(opts.bedRgbPossible && v == "bed_rgb")
    requires !(opts.colormapPossible && opts.colormapOnly)
    ensures ProcessColor(v, default, opts, env) == ColorOutcome(Text(v), false, [])
    ensures ProcessColorCorrected(v, default, opts, env) == ColorOutcome(Text(v), false, [])
  {
  }

  /** Lines 302-319 and 416-418: a `(`-value whose spaceless text matches
      `color_tuple`, whose groups `float()` reads and whose triple is colour-like
      is stored as that triple. */
  lemma TripleKept(v: string, default: string, opts: ColorOptions, env: Matplotlib)
    requires v != [] && v[0] == '(' && !env.isColorLike(Text(v))
    requires TripleOf(v, env).Some? && env.isColorLike(TripleOf(v, env).value)
    requires !(opts.colormapPossible && opts.colormapOnly)
    ensures ProcessColor(v, default, opts, env) == ColorOutcome(TripleOf(v, env).value, false, [])
    ensures ProcessColorCorrected(v, default, opts, env) == ColorOutcome(TripleOf(v, env).value, false, [])
  {
  }

  /** Lines 389-392 and 419-422: a registered colormap name that is not a
      colour is stored as it is and returns True. */
  lemma RegisteredNameKept(v: string, default: string, opts: ColorOptions, env: Matplotlib)
    requires v != [] && v[0] != '(' && v[0] != '[' && !env.isColorLike(Text(v))
    requires opts.colormapPossible && env.isColormapName(v) && v != "bed_rgb"
    ensures ProcessColor(v, default, opts, env) == ColorOutcome(Text(v), true, [])
    ensures ProcessColorCorrected(v, default, opts, env) == ColorOutcome(Text(v), true, [])
  {
  }

  /** Lines 361-381 and 419-422: a bracketed list that is not a colour, whose
      `(`-elements all match, whose elements all convert and which `from_list`
      accepts is stored as that custom colormap and returns True. */
  lemma CustomListKept(v: string, default: string, opts: ColorOptions, env: Matplotlib)
    requires BracketedList(v) && !env.isColorLike(Text(v)) && opts.colormapPossible
    requires TuplesMatch(ListElements(v)) && ElementColors(ListElements(v), env).Some?
    requires env.fromListAccepts(ElementColors(ListElements(v), env).value)
    ensures ProcessColor(v, default, opts, env) == ColorOutcome(Custom(ElementColors(ListElements(v), env).value), true, [])
    ensures ListElements(v) != [] ==>
      ProcessColorCorrected(v, default, opts, env) == ColorOutcome(Custom(ElementColors(ListElements(v), env).value), true, [])
  {
  }

  /** Lines 361-382 and 396-403: a bracketed list that is not a colour, whose
      `(`-elements all match and whose elements all convert, but which
      `from_list` rejects, stores the default with the single warning "the
      list of color could not be converted to colormap", and returns
      `default_value_is_colormap`. */
  lemma RejectedListFallsBack(v: string, default: string, opts: ColorOptions, env: Matplotlib)
    requires BracketedList(v) && !env.isColorLike(Text(v)) && opts.colormapPossible
    requires TuplesMatch(ListElements(v)) && ElementColors(ListElements(v), env).Some?
    requires !env.fromListAccepts(ElementColors(ListElements(v), env).value)
    ensures ProcessColor(v, default, opts, env) ==
      ColorOutcome(Text(default), opts.defaultValueIsColormap, [NeitherColorNorColormap(Some(NotAColormap))])
    ensures ListElements(v) != [] ==>
      ProcessColorCorrected(v, default, opts, env) ==
        ColorOutcome(Text(default), opts.defaultValueIsColormap, [NeitherColorNorColormap(Some(NotAColormap))])
  {
  }

  /** Lines 372-376 and 396-403: a bracketed list with an element `float()`
      rejects stores the default with the single float-conversion warning. */
  lemma UnconvertedListFallsBack(v: string, default: string, opts: ColorOptions, env: Matplotlib)
    requires BracketedList(v) && !env.isColorLike(Text(v)) && opts.colormapPossible
    requires TuplesMatch(ListElements(v)) && ElementColors(ListElements(v), env).None?
    ensures ProcessColor(v, default, opts, env) ==
      ColorOutcome(Text(default), opts.defaultValueIsColormap, [NeitherColorNorColormap(Some(FloatConversion))])
    ensures ProcessColorCorrected(v, default, opts, env) == ProcessColor(v, default, opts, env)
  {
  }

  /** `(,,)` matches `color_tuple` (each group is empty, which `float_regex`
      allows) but `float('')` raises, so the default is used. */
  lemma EmptyTupleFallsBack(v: string, default: string, opts: ColorOptions, env: Matplotlib)
    requires v == "(,,)" && !env.isColorLike(Text(v)) && env.parseFloat("") == None
    ensures Indexable(v, env)
    ensures SolidColor(v, default, env) == Solid(Some(Text(default)), [TupleFloatError])
    ensures ProcessColor(v, default, opts, env).stored == Text(default)
  {
    FilterKeepsAll(v, NotSpace);
    assert v == TupleText("", "", "", false);
    assert IsFloatText("");
    TupleMatches("", "", "", false);
  }

  /** Both versions agree on everything but the message. */
  lemma SameColormap(elements: seq<string>, env: Matplotlib)
    requires elements != []
    ensures ListCandidateAsWritten(elements, env).colormap == ListCandidate(elements, env).colormap
  {
  }

  /** Off the empty list, the corrected version stores the same value, returns
      the same flag and logs as many warnings as the code as written. */
  lemma CorrectedAgrees(v: string, default: string, opts: ColorOptions, env: Matplotlib)
    requires Indexable(v, env)
    requires BracketedList(v) ==> ListElements(v) != []
    ensures ProcessColorCorrected(v, default, opts, env).stored == ProcessColor(v, default, opts, env).stored
    ensures ProcessColorCorrected(v, default, opts, env).isColormap == ProcessColor(v, default, opts, env).isColormap
    ensures |ProcessColorCorrected(v, default, opts, env).warnings| == |ProcessColor(v, default, opts, env).warnings|
  {
    if BracketedList(v) {
      SameColormap(ListElements(v), env);
    }
  }

  /** `[]`: as written the empty list goes on to `from_list` and is never
      reported as having no colour between the brackets; corrected, it is. */
  lemma EmptyListExample(v: string, env: Matplotlib)
    requires v == "[]"
    ensures ListElements(v) == []
    ensures ColormapCandidate(v, env) == BuildColormap([], env)
    ensures ColormapCandidate(v, env).problem != Some(NoColorBetweenBrackets)
    ensures ColormapCandidateCorrected(v, env) == MapCandidate(None, Some(NoColorBetweenBrackets))
  {
    assert v[1..|v| - 1] == [];
  }

  /** `(1,2)` is a well-formed list element. */
  lemma TwoValueElement(e: string)
    requires e == "(1,2)"
    ensures WellFormedBlock(e)
  {
    assert e[0..2] == "(1";
    assert Enclosed(e, 2);
  }

  /** `(1,2)` fails `color_tuple`: it has two groups, not three. */
  lemma TwoValueNoMatch(e: string)
    requires e == "(1,2)"
    ensures MatchColorTuple(e).None?
  {
    assert DropFinalNewline(e) == e;
    assert e[1..|e| - 1] == Join(["1", "2"], ',');
    SplitJoin(["1", "2"], ',');
  }

  /** `[(1,2)]` holds the single element `(1,2)`. */
  lemma TwoValueList(v: string, e: string)
    requires v == "[(1,2)]" && e == "(1,2)"
    ensures ListElements(v) == [e]
  {
    var inner := v[1..|v| - 1];
    assert inner == e;
    FilterKeepsAll(inner, KeptInList);
    TwoValueElement(e);
    assert Join([e], ',') == e;
    BlocksOfJoin([e]);
  }

  /** `[(1,2)]`: one element, a two-value tuple. As written the warning says
      there is no colour between the brackets; corrected, it says the element
      is not formatted (r,g,b). */
  lemma TwoValueTupleExample(v: string, e: string, env: Matplotlib)
    requires v == "[(1,2)]" && e == "(1,2)"
    ensures ListElements(v) == [e]
    ensures ColormapCandidate(v, env).problem == Some(NoColorBetweenBrackets)
    ensures ColormapCandidateCorrected(v, env).problem == Some(BadTupleInList)
  {
    TwoValueList(v, e);
    TwoValueNoMatch(e);
    assert StartsGroup([e][0]);
    assert !TuplesMatch([e]);
  }
}

# pyGenomeTracks track settings, as a Dafny model

pyGenomeTracks draws genome browser tracks from an `.ini` file. Every track
class inherits from `GenomeTrack`. That base class turns the loosely typed
settings a user writes into validated values, and decides where the y-axis
scale of a track goes. This project models that logic and proves what it
promises.

The model covers:

- **Defaults and admissible values** (`Properties`, `properties.dfy`).
  Missing properties get their defaults, and a constrained property whose
  value is not admissible is reset to its default with one warning.
- **The `operation` sanitiser** (`Operation`, `operation.dfy`). It deletes
  the whitelisted words in a fixed order, then rejects any character that is
  not an arithmetic sign.
- **The `type` of coverage tracks** (`CoverageType`, `coverage_type.dfy`).
  The value is `<plot type>` or `<plot type>:<size>`, and it falls back to
  `fill`.
- **The three regular expressions** (`ColorSyntax`, `color_syntax.dfy`):
  `float_regex`, `color_tuple` and the list splitter
  `block_no_comma_outside_parenthesis`. Each is written as a deterministic
  matcher.
- **The colour/colormap decision** (`Color`, `color.dfy`): `bed_rgb`, solid
  colours, `(r, g, b)` triples, registered colormap names, and custom
  colormaps written as bracketed lists.
- **The y-axis scale** (`YAxis`, `yaxis.dfy`). This is the plan that
  `plot_y_axis` hands to matplotlib: epsilon, tick values, label positions
  and texts, label anchors, the transformation note, and the bracket-shaped
  polyline.
- **The y limits** (`YLim`, `ylim.dfy`): the user's or the plot's, and
  swapped when the track is inverted.

`wrappers.dfy` holds `Option`. `strings.dfy` models the Python string
primitives the code relies on:

- `str.find`, `str.split`, `str.join`;
- `str.replace(w, "")`: all non-overlapping occurrences, left to right;
- list comprehension filtering;
- `str(int)`.

Foreign behaviour is passed in as function values:

- `Color.Matplotlib` holds colour-likeness, the registered colormap names,
  whether `LinearSegmentedColormap.from_list` accepts a list, and Python's
  `float()` on a string.
- `YAxis.Numerics` holds `exp`, `exp2`, `power(10, .)`, `expm1`, the `.1f`
  format and `str` of the pseudocount.
- `YLim.ForwardTransform` is `utilities.transform`.
- `CoverageType.ProcessCoverageType` takes `float()` as a parameter.

Python's `None` is `Option.None`. Dicts are Dafny maps. Logged warnings are
returned as lists of diagnostics. The calls that would raise a Python
exception become preconditions:

- a constrained property that is missing with no default, or not
  admissible with no default;
- an empty colour string;
- a `type` with a second colon;
- an empty tick list;
- an untransform of an unknown transformation.

## Model

| member | source | states |
|---|---|---|
| Properties.FillDefaults | pygenometracks/tracks/GenomeTrack.py:64-67 | every default key is added, every user value is kept, and the result has exactly the user's keys plus the default keys |
| Properties.EnforcePossible | pygenometracks/tracks/GenomeTrack.py:68-79 | keys are unchanged; an inadmissible constrained value is replaced by its default; there is exactly one warning per such property, carrying the rejected value and the default, and no property is warned twice |
| Properties.SetPropertiesDefaults | pygenometracks/tracks/GenomeTrack.py:63-79 | the two loops together give the reference map `DefaultsApplied`; the key set is user keys plus defaults; unconstrained user values are kept; the warned properties are exactly the rejected ones |
| Properties.DefaultsFilled | pygenometracks/tracks/GenomeTrack.py:64-67 | every default key is present, no other key is added or removed, and unconstrained user values survive |
| Properties.ConstrainedResolved | pygenometracks/tracks/GenomeTrack.py:69-79 | a constrained property keeps its (defaulted) value when admissible and is otherwise exactly its default |
| Properties.AllAdmissible | pygenometracks/tracks/GenomeTrack.py:69-79 | when every default is admissible, every constrained property ends admissible |
| Properties.Idempotent | pygenometracks/tracks/GenomeTrack.py:63-79 | running the procedure on its own result changes nothing |
| Operation.CheckOperation | pygenometracks/tracks/GenomeTrack.py:424-439 | it accepts iff every character left after deleting the words is an allowed sign; on rejection the reported characters are non-empty and all forbidden; every forbidden character left is reported, as many times as it is left and in its order (a subsequence of what is left, and of the operation) |
| Operation.StripWordsSubsequence | pygenometracks/tracks/GenomeTrack.py:433-434 | deleting the whitelisted words leaves a subsequence of the operation |
| Operation.SignsOnlyPass | pygenometracks/tracks/GenomeTrack.py:424-439 | an operation written only with allowed signs is accepted |
| Operation.SecondFilePasses | pygenometracks/tracks/GenomeTrack.py:426-439 | `second_file` is accepted |
| Operation.Log1pOfFilePasses | pygenometracks/tracks/GenomeTrack.py:426-439 | `log1p(file)` is accepted |
| Operation.TwoFilesPass | pygenometracks/tracks/GenomeTrack.py:426-439 | `file + second_file * 2.5` is accepted |
| Operation.SplicedWordRejected | pygenometracks/tracks/GenomeTrack.py:433-439 | `fisumle` is rejected: deleting `sum` splices a `file` that is never deleted, and its four letters are reported |
| Operation.ShellCodeRejected | pygenometracks/tracks/GenomeTrack.py:433-439 | `file; import os` is rejected, reporting `;importos` |
| Operation.WordOrderMatters | pygenometracks/tracks/GenomeTrack.py:426-434 | deleting `file` before `second_file` would leave `second_`, which is why the whitelist order matters |
| CoverageType.ProcessCoverageType | pygenometracks/tracks/GenomeTrack.py:256-278 | the plot type is always `line`, `points` or `fill`, and is the requested one unless that is not among them; a size is present iff a colon sits past index 0 and the suffix parses; there are no warnings iff the type is known and any size parses |
| CoverageType.BarePlotType | pygenometracks/tracks/GenomeTrack.py:271-274 | a bare known plot type is kept, with no size and no warning |
| CoverageType.PlotTypeWithSize | pygenometracks/tracks/GenomeTrack.py:261-270 | `<plot type>:<size>` round-trips to the plot type and the parsed size, warning only when the size does not parse |
| CoverageType.LeadingColon | pygenometracks/tracks/GenomeTrack.py:261-278 | a colon at index 0 does not split, and the default `fill` is used without a size |
| ColorSyntax.FloatTextLanguage | pygenometracks/tracks/GenomeTrack.py:12 | `float_regex` matches exactly the digit strings (the empty one included) and digits, a dot and at least one digit |
| ColorSyntax.MatchColorTuple | pygenometracks/tracks/GenomeTrack.py:15 | a match has three groups, each matched by `float_regex` |
| ColorSyntax.TupleMatches | pygenometracks/tracks/GenomeTrack.py:15 | every `(a,b,c)` built from float texts, with or without a final newline, matches with groups `a`, `b`, `c` |
| ColorSyntax.MatchedShape | pygenometracks/tracks/GenomeTrack.py:15 | every match is `(a,b,c)` built from its groups, possibly followed by one newline |
| ColorSyntax.WellFormedIsRun | pygenometracks/tracks/GenomeTrack.py:17 | a string is one whole match of the splitter's repeated item iff it is non-empty, has no comma outside a group, and closes every group |
| ColorSyntax.Blocks | pygenometracks/tracks/GenomeTrack.py:17 | `findall` returns at most one block per character; every block is non-empty, never starts with a comma, and is made of characters of the scanned text |
| ColorSyntax.BlocksWellFormed | pygenometracks/tracks/GenomeTrack.py:17 | every block `findall` returns is non-empty, has no comma outside a parenthesised group, and closes its groups |
| ColorSyntax.BlocksOfJoin | pygenometracks/tracks/GenomeTrack.py:17 | joining well-formed blocks with commas and splitting again gives the same blocks |
| Color.ParseTriple | pygenometracks/tracks/GenomeTrack.py:305-308 | a triple is read iff `float()` accepts all three groups |
| Color.SolidColor | pygenometracks/tracks/GenomeTrack.py:300-336 | a solid colour is missing iff the value is not colour-like and does not start with `(`; a colour-like value is kept with no warning; a `(`-value whose triple reads and is colour-like gives that triple with no warning, any other `(`-value the default with exactly one warning, which names the failure: not formatted (r, g, b) when `color_tuple` does not match, a float error when `float()` rejects a group, not valid when the triple is not colour-like; any warning means the default |
| Color.ElementColors | pygenometracks/tracks/GenomeTrack.py:372-376 | list elements convert iff each one converts, position by position |
| Color.BuildColormap | pygenometracks/tracks/GenomeTrack.py:371-382 | a colormap is built iff every element converts and `from_list` accepts the colours, and a built colormap is exactly those element colours; colours `from_list` rejects give no colormap and the not-a-colormap message; the float message is given iff some element does not convert |
| Color.ListCandidateAsWritten | pygenometracks/tracks/GenomeTrack.py:366-387 | as written, "no color between brackets" is given iff some `(`-element fails `color_tuple`, never for the empty list; the "not formatted" message is never produced; a colormap comes only from a list whose tuples all match |
| Color.ListCandidate | pygenometracks/tracks/GenomeTrack.py:366-387 | the empty list is reported as having no colour between the brackets, a badly formatted `(`-element as such, and a colormap comes only from a non-empty list whose tuples all match |
| Color.ColormapCandidate | pygenometracks/tracks/GenomeTrack.py:353-392 | as written: a found colormap is a registered name or an accepted list; text not starting with `[` gives a colormap iff it is a registered name, and that colormap is the name itself; a `[` without a closing `]` gives nothing; a bracketed list is read by the as-written list branch |
| Color.ColormapCandidateCorrected | pygenometracks/tracks/GenomeTrack.py:353-392 | the same, with a bracketed list read by the corrected list branch |
| Color.Resolve | pygenometracks/tracks/GenomeTrack.py:338-422 | without colormaps the result is never a colormap and is the solid colour or the default; a colormap result stores the colormap or the default, any other the solid colour or the default; the solid colour's warnings come first |
| Color.ProcessColor | pygenometracks/tracks/GenomeTrack.py:280-422 | as written: `bed_rgb` is left alone where allowed; without colormaps the result is never a colormap; a colormap result is a colormap or the default; any warning means the default |
| Color.ProcessColorCorrected | pygenometracks/tracks/GenomeTrack.py:280-422 | with the corrected list branch, a colormap result is a colormap or the default and any warning means the default; a bracketed list that reaches the list branch is reported as badly formatted iff it is non-empty and some `(`-element fails `color_tuple` |
| Color.CorrectedAgrees | pygenometracks/tracks/GenomeTrack.py:366-422 | except on an empty list, the corrected version stores the same value, returns the same flag and logs as many warnings as the code as written |
| Color.ColorLikeKept | pygenometracks/tracks/GenomeTrack.py:300-301 | a colour-like value is stored as it is and returns False, with no warning, in both versions, unless only a colormap will do |
| Color.TripleKept | pygenometracks/tracks/GenomeTrack.py:302-319 | a `(`-value whose triple matches, reads and is colour-like is stored as that triple and returns False, with no warning, in both versions |
| Color.RegisteredNameKept | pygenometracks/tracks/GenomeTrack.py:389-392 | a registered colormap name that is not a colour is stored as it is and returns True, with no warning, in both versions |
| Color.CustomListKept | pygenometracks/tracks/GenomeTrack.py:361-381 | a bracketed list whose tuples match and convert and which `from_list` accepts is stored as that custom colormap and returns True, with no warning (corrected: when non-empty) |
| Color.RejectedListFallsBack | pygenometracks/tracks/GenomeTrack.py:361-403 | a bracketed list whose element colours `from_list` rejects stores the default with the single not-a-colormap warning and returns `default_value_is_colormap` (corrected: when non-empty) |
| Color.UnconvertedListFallsBack | pygenometracks/tracks/GenomeTrack.py:361-403 | a bracketed list with an element `float()` rejects stores the default with the single float-conversion warning, the same in both versions |
| Color.SolidOnly | pygenometracks/tracks/GenomeTrack.py:338-348 | without colormaps it returns False and stores the colour-like value, a colour-like triple read from it, or the default |
| Color.NeitherResolved | pygenometracks/tracks/GenomeTrack.py:396-403 | with neither a colour nor a colormap it stores the default and returns `default_value_is_colormap` |
| Color.ColormapOnlyTrue | pygenometracks/tracks/GenomeTrack.py:404-415 | with `colormap_only` a resolved value returns True and stores a colormap, or the default when only a solid colour resolved |
| Color.SolidBeforeColormap | pygenometracks/tracks/GenomeTrack.py:416-422 | otherwise a solid colour wins and returns False; a colormap is stored only when no colour resolved, and returns True |
| Color.BadTupleNoColormap | pygenometracks/tracks/GenomeTrack.py:369-384 | a list with a `(`-element that fails `color_tuple` never yields a custom colormap, as written or corrected |
| Color.EmptyTupleFallsBack | pygenometracks/tracks/GenomeTrack.py:304-316 | `(,,)` matches `color_tuple`, but `float('')` fails, so the default is stored with the float warning |
| Color.SameColormap | pygenometracks/tracks/GenomeTrack.py:366-387 | for a non-empty list the as-written and corrected versions build the same colormap |
| Color.TwoValueTupleExample | pygenometracks/tracks/GenomeTrack.py:361-387 | `[(1,2)]` holds one element `(1,2)`; as written the message is "no color between brackets", corrected it is "not formatted" |
| Color.EmptyListExample | pygenometracks/tracks/GenomeTrack.py:361-387 | `[]` holds no element; as written it goes on to `from_list` and is never reported as having no colour between the brackets; corrected, it is |
| YAxis.Untransform | pygenometracks/tracks/GenomeTrack.py:109-121 | a value comes back iff the transformation is one of the five known ones |
| YAxis.ValueToStr | pygenometracks/tracks/GenomeTrack.py:100-107 | the label of an integral value is canonical decimal text (no leading zero, no `-0`) that reads back as the value |
| Strings.CanonicalUnique | pygenometracks/tracks/GenomeTrack.py:100-107 | canonical decimal text is exactly `str` of the integer it denotes, so an integral label is `str(int(value))` |
| YAxis.Log1pIgnoresPseudocount | pygenometracks/tracks/GenomeTrack.py:118-119 | `log1p` is undone without the pseudocount |
| YAxis.DefaultShowsOriginalUnits | pygenometracks/tracks/GenomeTrack.py:145-150 | with the misspelled default `tranformed`, any transformation is shown in original units |
| YAxis.Within | pygenometracks/tracks/GenomeTrack.py:139-142 | exactly the ticks within the limits are kept, each as many times as the input holds it, and nothing else |
| YAxis.WithinIsSubsequence | pygenometracks/tracks/GenomeTrack.py:139-142 | the kept ticks are in their input order |
| YAxis.SortDescending | pygenometracks/tracks/GenomeTrack.py:143 | the result is sorted from the largest and is a permutation of the input |
| YAxis.TickModeTicks | pygenometracks/tracks/GenomeTrack.py:139-143 | tick mode keeps each tick within the limits as many times as the axis lists it, and nothing else; upright in their order, otherwise sorted from the largest |
| YAxis.TickModeSpec | pygenometracks/tracks/GenomeTrack.py:139-144 | a value is a tick in tick mode iff the axis lists it and it lies within the limits; upright in their order, otherwise sorted from the largest |
| YAxis.DescendingUnique | pygenometracks/tracks/GenomeTrack.py:143 | two descending sequences with the same elements, counted with multiplicity, are equal |
| YAxis.TickModeOrderUnique | pygenometracks/tracks/GenomeTrack.py:139-143 | upside down or flat, the tick list is the only descending arrangement of the ticks within the limits |
| YAxis.PlotYAxis | pygenometracks/tracks/GenomeTrack.py:97-222 | nothing is drawn iff `show_data_range` is false; epsilon is a hundredth of the range; ticks, positions and texts have equal non-zero length; there is one label per tick (two for one tick); every text is the label of its position; tick mode uses the tick-mode ticks as positions; the labels are the first, inner and last labels of the ticks; the line is the zigzag through the ticks |
| YAxis.RangeModeLinear | pygenometracks/tracks/GenomeTrack.py:150-161 | linear range mode has ticks at `ymin + eps` and `ymax - eps`, labels at the limits, and prints the limits |
| YAxis.RangeModeOriginal | pygenometracks/tracks/GenomeTrack.py:174-188 | original units add a middle tick at 0 when the limits have opposite signs and at their mean otherwise; every text is the untransformed value |
| YAxis.RangeModeAnchors | pygenometracks/tracks/GenomeTrack.py:190-220 | in range mode with distinct limits the first label anchors `bottom` at `ymin - eps` and the last anchors `top` at `ymax` |
| YAxis.FlatLabelsCentered | pygenometracks/tracks/GenomeTrack.py:190-220 | with equal limits no first or last label sits on or hangs from its line |
| YAxis.FlatAxisCentered | pygenometracks/tracks/GenomeTrack.py:190-220 | with equal limits every label is centred |
| YAxis.LabelsFollowTicks | pygenometracks/tracks/GenomeTrack.py:200-220 | every label carries its tick's text at x = -0.2; all but the first sit at their position; inner ones are centred |
| YAxis.Zigzag | pygenometracks/tracks/GenomeTrack.py:202-222 | the line has four vertices plus three per inner tick; it starts at x = 0 and goes out to 0.5 at the first tick, and comes back from 0.5 to 0 at the last |
| YAxis.ZigzagClosedForm | pygenometracks/tracks/GenomeTrack.py:202-222 | the polyline has 3n-2 vertices for n >= 2 ticks (4 for one tick), starts and ends at x = 0, and vertex k is at x = 0 iff 3 divides k, at the height of tick `(k+1)/3` |
| YAxis.NoteShown | pygenometracks/tracks/GenomeTrack.py:162-173 | the transformation note appears iff range mode shows transformed values; it reads `log(1 + x)` for `log1p`, `t(x)` for another transformation `t` with pseudocount 0, and `t(p + x)` with the pseudocount `p` written by `str` |
| YAxis.ZeroToTen | pygenometracks/tracks/GenomeTrack.py:123-161 | limits 0 and 10 without a transformation give epsilon 0.1, ticks 0.1 and 9.9, and labels `0` and `10` |
| YLim.UnsetKeepsPlotLimits | pygenometracks/tracks/GenomeTrack.py:499-519 | without user limits the plot's limits are kept, swapped when inverted |
| YLim.UserLimitTransformed | pygenometracks/tracks/GenomeTrack.py:499-519 | a user limit is transformed, with `no` and a pseudocount of 0 when those are unset, and an unset one keeps the plot's; the minimum sets the bottom and the maximum the top, swapped when inverted; `YLim.InvertedSwaps` and `YLim.LimitsIndependent` relate different settings |
| YLim.InvertedSwaps | pygenometracks/tracks/GenomeTrack.py:516-519 | `orientation = inverted` exactly swaps the limits; any other orientation is the same as none |
| YLim.LimitsIndependent | pygenometracks/tracks/GenomeTrack.py:500-519 | the user's minimum never moves the end the maximum sets, and the other way round, upright or inverted |

## Left out

- Logging. Warnings are returned as diagnostics without their text, and the
  `section_name` lookup they perform is not modelled.
- The matplotlib drawing calls are replaced by the values they receive:
  - `ax.text`, `ax.plot`, `set_ylim`, `set_xlim` and the patch visibility;
  - `plot_label` (lines 232-254), a rendering side effect;
  - `plot_custom_cobar` (lines 455-497), a rendering side effect.
- `check_chrom_str_bytes` (lines 441-453): a str/bytes dispatch on Python
  runtime types, with nothing to state about values.
- The class tables (lines 29-51) are declared and not enforced here. The
  defaults and admissible values are parameters instead.
- Python dict order. Both loops of `set_properties_defaults` are modelled
  over sets of keys, in any order, because their result does not depend on
  the order. The order of the warnings is therefore unspecified.
- Floating-point arithmetic is modelled with Dafny reals:
  - no `inf`, `nan`, `-0.0` or rounding;
  - `value % 1 == 0` is `IsIntegral`;
  - the `.1f` format, `exp`, `exp2`, `power` and `expm1` are abstract;
  - `utilities.transform` is abstract, and `utilities` is not part of this
    model.
- `float()` is abstract, so the model does not say which texts it accepts.
- `ColorSyntax.IsFloatText`: `\d` is taken as the ASCII digits. Python's
  `\d` on `str` also matches other Unicode decimal digits.
- The behaviour of matplotlib is not modelled: colour-likeness, the
  colormap names in `dir(plt.cm)`, and when `from_list` raises.
- Crash paths are stated as preconditions rather than as exceptions:
  - `Properties.Enforceable`: a `KeyError` at lines 71-72, for a constrained
    property that is missing, or inadmissible, and has no default;
  - `Color.Indexable`: an empty colour value indexed at lines 304 and 361;
  - `Color.ProcessColor`: a `KeyError` at line 296 for a colour property
    with no entry in `DEFAULTS_PROPERTIES`; the model takes the default
    value as the `default` parameter, so it assumes one exists;
  - `CoverageType.Unpackable`: more than one colon at line 262;
  - `YAxis.Plottable`: an empty tick list at line 193;
  - `YAxis.Plottable`: an unknown transformation shown in original units,
    where `value_to_str(None)` raises.
- `Operation.CheckOperation`: the error message for the `InputError` is
  built, but the exception itself is a result value.
- `Color.ListCandidate`: the corrected version also sends an empty list
  (`[]`, `[,]`) to "no color between brackets". As written, an empty list
  reaches `from_list`, whose behaviour on it is matplotlib's.
- `Color.ProcessColorCorrected`: it states less about `bed_rgb` and the
  no-colormap case than `Color.ProcessColor`. It shares those branches with
  the code as written, and `Color.CorrectedAgrees` relates the two.
- `YLim.AdjustYlim` carries no contract of its own. Its behaviour is stated
  by the four `YLim` lemmas in the table above.

## Findings

| source | as written | input that shows it | evidently intended | confidence | as-written member | corrected member |
|---|---|---|---|---|---|---|
| pygenometracks/tracks/GenomeTrack.py:366-387 | `findall` never returns `None`, so the test at line 367 always passes. The "not formatted (r,g,b)" message at lines 386-387 is dead code. A list whose `(`-element fails `color_tuple` gets the line-384 message "there is no color between brackets" | `colormap = [(1,2)]`: one element `(1,2)` with two values | "there is no color between brackets" for an empty list, and "some colors starting with ( ... are not formatted (r,g,b)" for a bad tuple | medium, not executed | Color.ListCandidateAsWritten, Color.ProcessColor, Color.TwoValueTupleExample | Color.ListCandidate, Color.ProcessColorCorrected, Color.CorrectedAgrees |

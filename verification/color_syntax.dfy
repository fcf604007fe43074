/** The three regular expressions at the top of GenomeTrack.py: `float_regex`,
    `color_tuple` and `block_no_comma_outside_parenthesis`, as deterministic
    matchers over strings. `\d` is taken as the ASCII digits. */
module ColorSyntax {
  import opened Wrappers
  import opened Strings

  predicate IsDigit(c: char)
  {
    '0' <= c <= '9'
  }

  predicate AllDigits(s: string)
  {
    forall i | 0 <= i < |s| :: IsDigit(s[i])
  }

  /** `float_regex` matches the whole of `g`: optional digits, then
      optionally a dot followed by at least one digit. */
  predicate IsFloatText(g: string)
  {
    var k := Find(g, '.');
    if k < 0 then AllDigits(g)
    else AllDigits(g[..k]) && k + 1 < |g| && AllDigits(g[k + 1..])
  }

  /** The language of `float_regex`, written without `Find`: either only
      digits, or digits, a dot and at least one digit. */
  lemma FloatTextLanguage(g: string)
    ensures IsFloatText(g) <==>
      AllDigits(g) ||
      exists k | 0 <= k < |g| - 1 :: g[k] == '.' && AllDigits(g[..k]) && AllDigits(g[k + 1..])
  {
    var k := Find(g, '.');
    if k >= 0 {
      assert !AllDigits(g) by { assert !IsDigit(g[k]); }
      if IsFloatText(g) {
        assert g[k] == '.' && AllDigits(g[..k]) && AllDigits(g[k + 1..]);
      }
      if exists j | 0 <= j < |g| - 1 :: g[j] == '.' && AllDigits(g[..j]) && AllDigits(g[j + 1..]) {
        var j :| 0 <= j < |g| - 1 && g[j] == '.' && AllDigits(g[..j]) && AllDigits(g[j + 1..]);
        assert forall i | 0 <= i < j :: g[..j][i] == g[i] && g[i] != '.';
        assert forall i | 0 <= i < k :: g[..k][i] == g[i] && g[i] != '.';
        assert j == k;
      }
    }
  }

  /** Text that `float_regex` matches holds only digits and dots, so it never
      contains a comma, a bracket or a newline. */
  lemma FloatTextChars(g: string)
    requires IsFloatText(g)
    ensures forall i | 0 <= i < |g| :: IsDigit(g[i]) || g[i] == '.'
  {
    var k := Find(g, '.');
    if k >= 0 {
      forall i | 0 <= i < |g|
        ensures IsDigit(g[i]) || g[i] == '.'
      {
        if i < k {
          assert g[..k][i] == g[i];
        } else if i > k {
          assert g[k + 1..][i - k - 1] == g[i];
        }
      }
    }
  }

  /** Python's `$` (without MULTILINE) also matches before a final newline. */
  function DropFinalNewline(s: string): string
  {
    if |s| > 0 && s[|s| - 1] == '\n' then s[..|s| - 1] else s
  }

  /** The groups of the text between the brackets: three `float_regex`
      matches separated by commas. */
  function TupleGroups(inner: string): (m: Option<seq<string>>)
    ensures m.Some? ==> |m.value| == 3 && forall i | 0 <= i < 3 :: IsFloatText(m.value[i])
    ensures m.Some? ==> Join(m.value, ',') == inner
  {
    var groups := Split(inner, ',');
    if |groups| == 3 && IsFloatText(groups[0]) && IsFloatText(groups[1]) && IsFloatText(groups[2])
    then Some(groups)
    else None
  }

  /** `s` is `(` + inner + `)`. */
  predicate Bracketed(body: string)
  {
    |body| >= 2 && body[0] == '(' && body[|body| - 1] == ')'
  }

  /** `color_tuple.match(s)`: the three groups when `s` is `(g,g,g)` with
      every `g` matched by `float_regex`. */
  function MatchColorTuple(s: string): (m: Option<seq<string>>)
    ensures m.Some? ==> |m.value| == 3 && forall i | 0 <= i < 3 :: IsFloatText(m.value[i])
  {
    var body := DropFinalNewline(s);
    if Bracketed(body) then TupleGroups(body[1..|body| - 1]) else None
  }

  /** The text `(a,b,c)`, optionally followed by a newline. */
  function TupleText(a: string, b: string, c: string, newline: bool): string
  {
    var body := "(" + (a + "," + b + "," + c) + ")";
    if newline then body + "\n" else body
  }

  lemma JoinThree(g: seq<string>)
    requires |g| == 3
    ensures Join(g, ',') == g[0] + "," + g[1] + "," + g[2]
  {
    assert g[1..][1..] == [g[2]];
    assert Join(g[1..][1..], ',') == g[2];
    assert Join(g[1..], ',') == g[1] + [','] + g[2];
  }

  /** Three float texts joined by commas split back into themselves. */
  lemma GroupsOfThree(a: string, b: string, c: string)
    requires IsFloatText(a) && IsFloatText(b) && IsFloatText(c)
    ensures TupleGroups(a + "," + b + "," + c) == Some([a, b, c])
  {
    FloatTextChars(a);
    FloatTextChars(b);
    FloatTextChars(c);
    assert ',' !in a && ',' !in b && ',' !in c;
    JoinThree([a, b, c]);
    SplitJoin([a, b, c], ',');
  }

  /** The body of a tuple text, with the newline dropped. */
  lemma TupleTextBody(a: string, b: string, c: string, newline: bool)
    ensures DropFinalNewline(TupleText(a, b, c, newline)) == TupleText(a, b, c, false)
    ensures Bracketed(TupleText(a, b, c, false))
    ensures TupleText(a, b, c, false)[1..|TupleText(a, b, c, false)| - 1] == a + "," + b + "," + c
  {
    var body := TupleText(a, b, c, false);
    assert body == "(" + (a + "," + b + "," + c) + ")";
    if newline {
      assert TupleText(a, b, c, newline) == body + "\n";
      assert (body + "\n")[..|body|] == body;
    }
  }

  /** Every `(a,b,c)` built from float texts matches, with groups `a`, `b`, `c`. */
  lemma TupleMatches(a: string, b: string, c: string, newline: bool)
    requires IsFloatText(a) && IsFloatText(b) && IsFloatText(c)
    ensures MatchColorTuple(TupleText(a, b, c, newline)) == Some([a, b, c])
  {
    TupleTextBody(a, b, c, newline);
    GroupsOfThree(a, b, c);
  }

  /** A bracketed body whose inside splits in three groups is `(a,b,c)`. */
  lemma BracketedShape(body: string, g: seq<string>)
    requires Bracketed(body)
    requires |g| == 3 && Join(g, ',') == body[1..|body| - 1]
    ensures body == TupleText(g[0], g[1], g[2], false)
  {
    var inner := body[1..|body| - 1];
    JoinThree(g);
    assert inner == g[0] + "," + g[1] + "," + g[2];
    assert body == [body[0]] + inner + [body[|body| - 1]];
    assert body == "(" + inner + ")";
  }

  /** Dropping a final newline leaves `s` or `s` without its last character. */
  lemma DropFinalNewlineShape(s: string)
    ensures s == DropFinalNewline(s) || s == DropFinalNewline(s) + "\n"
  {
    if |s| > 0 && s[|s| - 1] == '\n' {
      assert s == s[..|s| - 1] + [s[|s| - 1]];
    }
  }

  /** Every match has the shape `(a,b,c)` (plus an optional final newline)
      built from its three groups. */
  lemma MatchedShape(s: string)
    requires MatchColorTuple(s).Some?
    ensures var g := MatchColorTuple(s).value;
      s == TupleText(g[0], g[1], g[2], false) || s == TupleText(g[0], g[1], g[2], true)
  {
    var body := DropFinalNewline(s);
    var g := MatchColorTuple(s).value;
    BracketedShape(body, g);
    DropFinalNewlineShape(s);
  }

  /** Length of the item `[^,(]|\([^)]*\)` at the start of `s`: one character
      other than `,` and `(`, or a `(` up to the first `)`. Zero when no item
      starts there. */
  function ItemLength(s: string): (n: nat)
    ensures n <= |s|
  {
    if s == [] || s[0] == ',' then 0
    else if s[0] != '(' then 1
    else
      var k := Find(s[1..], ')');
      if k < 0 then 0 else k + 2
  }

  /** Length of the greedy match of `(?:item)+` at the start of `s`, zero
      when it does not match there. Items never overlap in what they can
      start with, so the greedy match needs no backtracking. */
  function RunLength(s: string): (n: nat)
    ensures n <= |s|
    decreases |s|
  {
    var k := ItemLength(s);
    if k == 0 then 0 else k + RunLength(s[k..])
  }

  /** `block_no_comma_outside_parenthesis.findall(s)`: scanning left to
      right, every maximal run is a block; where no item starts (a comma, or
      a `(` that is never closed) the scan moves on by one character. */
  function Blocks(s: string): (bs: seq<string>)
    ensures |bs| <= |s|
    ensures forall i | 0 <= i < |bs| :: bs[i] != [] && bs[i][0] != ','
    ensures forall i, j | 0 <= i < |bs| && 0 <= j < |bs[i]| :: bs[i][j] in s
    decreases |s|
  {
    if s == [] then []
    else
      var n := RunLength(s);
      if n == 0 then Blocks(s[1..]) else [s[..n]] + Blocks(s[n..])
  }

  /** Position `i` of `s` lies inside a parenthesised group: some earlier `(`
      has no `)` between it and `i`. */
  predicate Enclosed(s: string, i: int)
    requires 0 <= i <= |s|
  {
    exists j | 0 <= j < i :: s[j] == '(' && ')' !in s[j..i]
  }

  /** No comma outside a parenthesised group. */
  predicate CommasEnclosed(s: string)
  {
    forall i | 0 <= i < |s| && s[i] == ',' :: Enclosed(s, i)
  }

  /** Every `(` is closed by a later `)`. */
  predicate GroupsClosed(s: string)
  {
    forall j | 0 <= j < |s| && s[j] == '(' :: ')' in s[j..]
  }

  /** What a list element looks like: non-empty, every comma inside a group,
      every group closed. */
  predicate WellFormedBlock(s: string)
  {
    s != [] && CommasEnclosed(s) && GroupsClosed(s)
  }

  /** Every `(` before `k` is closed before `k`: nothing of `s[..k]` can
      enclose a later position. */
  predicate ClosedBefore(s: string, k: nat)
    requires k <= |s|
  {
    forall j | 0 <= j < k && s[j] == '(' :: ')' in s[j..k]
  }

  lemma ItemClosed(s: string)
    requires ItemLength(s) > 0
    ensures ClosedBefore(s, ItemLength(s))
  {
    var k := ItemLength(s);
    if s[0] == '(' {
      assert s[k - 1] == s[1..][k - 2] == ')';
      forall j | 0 <= j < k && s[j] == '('
        ensures ')' in s[j..k]
      {
        assert s[j..k][k - 1 - j] == ')';
      }
    }
  }

  /** Enclosure past a closed prefix is enclosure in the suffix. */
  lemma EnclosedInSuffix(s: string, k: nat, i: nat)
    requires k <= i <= |s| && ClosedBefore(s, k) && Enclosed(s, i)
    ensures Enclosed(s[k..], i - k)
  {
    var j :| 0 <= j < i && s[j] == '(' && ')' !in s[j..i];
    assert forall m | j <= m < i :: s[j..i][m - j] == s[m] && s[m] != ')';
    assert j >= k;
    assert s[k..][j - k] == '(';
    assert s[k..][j - k..i - k] == s[j..i];
  }

  /** Enclosure in a suffix is enclosure in the whole. */
  lemma EnclosedFromSuffix(s: string, k: nat, i: nat)
    requires k <= |s| && i <= |s| - k && Enclosed(s[k..], i)
    ensures Enclosed(s, i + k)
  {
    var j :| 0 <= j < i && s[k..][j] == '(' && ')' !in s[k..][j..i];
    assert s[k..][j..i] == s[j + k..i + k];
  }

  /** A comma inside a group item is enclosed by the item's `(`. */
  lemma CommaInGroup(s: string, i: nat)
    requires ItemLength(s) > 0 && s[0] == '(' && i < ItemLength(s) && s[i] == ','
    ensures Enclosed(s, i)
  {
    var k := ItemLength(s);
    var f := Find(s[1..], ')');
    assert k == f + 2;
    assert forall m | 1 <= m < i :: s[1..][..f][m - 1] == s[m] && s[m] != ')';
    assert ')' !in s[0..i];
  }

  /** A comma of `s` is enclosed when it is enclosed in `s[k..]` past the first item. */
  lemma CommaPastItem(s: string, i: nat)
    requires ItemLength(s) > 0 && i < |s| && s[i] == ','
    requires i >= ItemLength(s) ==> Enclosed(s[ItemLength(s)..], i - ItemLength(s))
    ensures Enclosed(s, i)
  {
    var k := ItemLength(s);
    if i < k {
      CommaInGroup(s, i);
    } else {
      EnclosedFromSuffix(s, k, i - k);
    }
  }

  /** The properties of `s[k..]` carry over to `s` when `s[..k]` is one item. */
  lemma CommasPastItem(s: string)
    requires ItemLength(s) > 0 && CommasEnclosed(s[ItemLength(s)..])
    ensures CommasEnclosed(s)
  {
    var k := ItemLength(s);
    forall i | 0 <= i < |s| && s[i] == ','
      ensures Enclosed(s, i)
    {
      if i >= k {
        assert s[k..][i - k] == ',';
      }
      CommaPastItem(s, i);
    }
  }

  /** A `(` of `s` is closed when `s[..k]` closes its own groups and the
      `(` is closed in `s[k..]`. */
  lemma GroupPastItem(s: string, k: nat, j: nat)
    requires k <= |s| && ClosedBefore(s, k)
    requires j < |s| && s[j] == '('
    requires j >= k ==> ')' in s[k..][j - k..]
    ensures ')' in s[j..]
  {
    if j < k {
      assert ')' in s[j..k];
      var m :| 0 <= m < k - j && s[j..k][m] == ')';
      assert s[j..][m] == ')';
    } else {
      assert s[k..][j - k..] == s[j..];
    }
  }

  lemma GroupsPastItem(s: string)
    requires ItemLength(s) > 0 && GroupsClosed(s[ItemLength(s)..])
    ensures GroupsClosed(s)
  {
    var k := ItemLength(s);
    ItemClosed(s);
    forall j | 0 <= j < |s| && s[j] == '('
      ensures ')' in s[j..]
    {
      if j >= k {
        assert s[k..][j - k] == '(';
      }
      GroupPastItem(s, k, j);
    }
  }

  /** A run covering all of `s` leaves no comma outside a group and no `(` unclosed. */
  lemma {:induction false} RunSound(s: string)
    requires RunLength(s) == |s|
    ensures CommasEnclosed(s) && GroupsClosed(s)
    decreases |s|
  {
    if s != [] {
      var k := ItemLength(s);
      RunSound(s[k..]);
      CommasPastItem(s);
      GroupsPastItem(s);
    }
  }

  /** Past the first item the properties still hold. */
  lemma CommasAfterItem(s: string)
    requires ItemLength(s) > 0 && CommasEnclosed(s)
    ensures CommasEnclosed(s[ItemLength(s)..])
  {
    var k := ItemLength(s);
    ItemClosed(s);
    forall i | 0 <= i < |s| - k && s[k..][i] == ','
      ensures Enclosed(s[k..], i)
    {
      CommaAfterItem(s, k, i);
    }
  }

  lemma CommaAfterItem(s: string, k: nat, i: nat)
    requires k <= |s| && ClosedBefore(s, k) && i < |s| - k && s[k..][i] == ','
    requires CommasEnclosed(s)
    ensures Enclosed(s[k..], i)
  {
    assert s[i + k] == ',';
    EnclosedInSuffix(s, k, i + k);
  }

  lemma GroupsAfterItem(s: string, k: nat)
    requires k <= |s| && GroupsClosed(s)
    ensures GroupsClosed(s[k..])
  {
    var rest := s[k..];
    forall j | 0 <= j < |rest| && rest[j] == '('
      ensures ')' in rest[j..]
    {
      assert s[j + k] == '(';
      assert rest[j..] == s[j + k..];
    }
  }

  /** An item starts wherever commas are enclosed and groups closed. */
  lemma ItemStarts(s: string)
    requires s != [] && CommasEnclosed(s) && GroupsClosed(s)
    ensures ItemLength(s) > 0
  {
    assert s[0] != ',';
    if s[0] == '(' {
      assert ')' in s[0..];
      var m :| 0 <= m < |s| && s[0..][m] == ')';
      assert s[1..][m - 1] == ')';
    }
  }

  /** Conversely, with every comma enclosed and every `(` closed, the run covers all of `s`. */
  lemma {:induction false} RunComplete(s: string)
    requires CommasEnclosed(s) && GroupsClosed(s)
    ensures RunLength(s) == |s|
    decreases |s|
  {
    if s != [] {
      ItemStarts(s);
      var k := ItemLength(s);
      CommasAfterItem(s);
      GroupsAfterItem(s, k);
      RunComplete(s[k..]);
    }
  }

  /** The blocks of a well-formed element are exactly the element: it is one run. */
  lemma WellFormedIsRun(s: string)
    ensures WellFormedBlock(s) <==> s != [] && RunLength(s) == |s|
  {
    if WellFormedBlock(s) {
      RunComplete(s);
    }
    if s != [] && RunLength(s) == |s| {
      RunSound(s);
    }
  }

  /** Appending text after an item leaves the item unchanged. */
  lemma ItemExtend(s: string, x: string)
    requires ItemLength(s) > 0
    ensures ItemLength(s + x) == ItemLength(s)
  {
    if s[0] == '(' {
      var f := Find(s[1..], ')');
      assert (s + x)[1..] == s[1..] + x;
      assert (s + x)[1..][..f] == s[1..][..f];
      FindFirst((s + x)[1..], ')', f);
    }
  }

  /** Cutting text after an item leaves the item unchanged. */
  lemma ItemPrefix(s: string, m: nat)
    requires 0 < ItemLength(s) <= m <= |s|
    ensures ItemLength(s[..m]) == ItemLength(s)
  {
    assert s == s[..m] + s[m..];
    if s[0] == '(' {
      var f := Find(s[1..], ')');
      assert s[..m][1..][..f] == s[1..][..f];
      assert s[..m][1..][f] == ')';
      FindFirst(s[..m][1..], ')', f);
    }
  }

  /** Where no item starts, none starts in a prefix either. */
  lemma NoItemPrefix(s: string, m: nat)
    requires ItemLength(s) == 0 && m <= |s|
    ensures ItemLength(s[..m]) == 0
  {
    if m > 0 && s[0] == '(' {
      assert forall i | 0 <= i < m - 1 :: s[..m][1..][i] == s[1..][i];
    }
  }

  /** The item at the start of `p + q` is the item at the start of `p` when
      it ends inside `p`. */
  lemma ItemOfPrefix(p: string, q: string)
    requires ItemLength(p + q) <= |p|
    ensures ItemLength(p) == ItemLength(p + q)
  {
    var s := p + q;
    assert s[..|p|] == p;
    if ItemLength(s) > 0 {
      ItemPrefix(s, |p|);
    } else {
      NoItemPrefix(s, |p|);
    }
  }

  /** One item of a run survives cutting the text after it: the run of the
      prefix is that item followed by the run of the cut remainder. */
  lemma PrefixStep(p: string, q: string)
    requires 0 < ItemLength(p + q) <= |p|
    ensures ItemLength(p) == ItemLength(p + q)
    ensures RunLength(p + q) == ItemLength(p) + RunLength(p[ItemLength(p)..] + q)
    ensures RunLength(p) == ItemLength(p) + RunLength(p[ItemLength(p)..])
  {
    ItemOfPrefix(p, q);
    var k := ItemLength(p);
    assert (p + q)[k..] == p[k..] + q;
  }

  /** The run at the start of `p + q` is also the run at the start of `p`
      when it ends inside `p`. */
  lemma {:induction false} RunPrefix(p: string, q: string)
    requires RunLength(p + q) <= |p|
    ensures RunLength(p) == RunLength(p + q)
    decreases |p|
  {
    var k := ItemLength(p + q);
    if k == 0 {
      ItemOfPrefix(p, q);
    } else {
      PrefixStep(p, q);
      RunPrefix(p[k..], q);
    }
  }

  /** One item of a run survives appending text after it: the run of the
      extension is that item followed by the run of the extended remainder. */
  lemma ExtendStep(b: string, x: string)
    requires ItemLength(b) > 0
    ensures RunLength(b + x) == ItemLength(b) + RunLength(b[ItemLength(b)..] + x)
  {
    var k := ItemLength(b);
    ItemExtend(b, x);
    assert (b + x)[k..] == b[k..] + x;
  }

  /** A run is not extended across a comma. */
  lemma {:induction false} RunExtend(b: string, x: string)
    requires RunLength(b) == |b| && (x == [] || x[0] == ',')
    ensures RunLength(b + x) == |b|
    decreases |b|
  {
    if b == [] {
      assert b + x == x;
    } else {
      ExtendStep(b, x);
      RunExtend(b[ItemLength(b)..], x);
    }
  }

  /** Every block findall returns is non-empty, has no comma outside a
      parenthesised group, and closes every group it opens. */
  lemma {:induction false} BlocksWellFormed(s: string)
    ensures forall i | 0 <= i < |Blocks(s)| :: WellFormedBlock(Blocks(s)[i])
    decreases |s|
  {
    if s != [] {
      var n := RunLength(s);
      if n == 0 {
        BlocksWellFormed(s[1..]);
      } else {
        assert s[..n] + s[n..] == s;
        RunPrefix(s[..n], s[n..]);
        RunSound(s[..n]);
        BlocksWellFormed(s[n..]);
      }
    }
  }

  /** Splitting a comma-joined list of well-formed elements gives back the elements. */
  lemma {:induction false} BlocksOfJoin(bs: seq<string>)
    requires forall i | 0 <= i < |bs| :: WellFormedBlock(bs[i])
    ensures Blocks(Join(bs, ',')) == bs
    decreases |bs|
  {
    if bs != [] {
      var b := bs[0];
      WellFormedIsRun(b);
      if |bs| == 1 {
        assert Join(bs, ',') == b;
        RunExtend(b, []);
        assert b + [] == b;
        assert b[|b|..] == [];
      } else {
        var tail := [','] + Join(bs[1..], ',');
        var s := Join(bs, ',');
        assert s == b + tail;
        RunExtend(b, tail);
        assert s[..|b|] == b && s[|b|..] == tail;
        assert ItemLength(tail) == 0;
        assert Blocks(tail) == Blocks(Join(bs[1..], ','));
        BlocksOfJoin(bs[1..]);
      }
    }
  }
}

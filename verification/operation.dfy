/** The `operation` sanitiser of a track (GenomeTrack.checkoperation): an
    arithmetic expression over two data files is accepted only when, once the
    whitelisted words are deleted, nothing but arithmetic signs remains. */
module Operation {
  import opened Strings

  /** Whitelisted words, deleted in this order. */
  const AllowedWords: seq<string> := ["second_file", "file", "sum", "min", "max", "log1p", "log"]

  /** Characters allowed to remain once the words are deleted. */
  const AllowedSigns: set<char> :=
    {'+', '-', '*', '/', '(', ')', '.', ',', ' ', '0', '1', '2', '3', '4', '5', '6', '7', '8', '9'}

  predicate NonEmptyWords(words: seq<string>) {
    forall i | 0 <= i < |words| :: |words[i]| > 0
  }

  /** Applies `operation.replace(word, "")` for each word in turn. */
  function StripWords(s: string, words: seq<string>): (r: string)
    requires NonEmptyWords(words)
    ensures |r| <= |s|
    decreases |words|
  {
    if words == [] then s
    else StripWords(ReplaceAll(s, words[0]), words[1..])
  }

  /** Deleting words leaves a subsequence of the original. */
  lemma {:induction false} StripWordsSubsequence(s: string, words: seq<string>)
    requires NonEmptyWords(words)
    ensures IsSubsequence(StripWords(s, words), s)
    decreases |words|
  {
    if words == [] {
      SubsequenceRefl(s);
    } else {
      var once := ReplaceAll(s, words[0]);
      ReplaceAllSubsequence(s, words[0]);
      StripWordsSubsequence(once, words[1..]);
      SubsequenceTrans(StripWords(s, words), once, s);
    }
  }

  function IsForbidden(c: char): bool {
    c !in AllowedSigns
  }

  /** The characters of what remains that are not allowed signs, in order. */
  function ForbiddenSigns(operation: string): string {
    Filter(StripWords(operation, AllowedWords), IsForbidden)
  }

  datatype OperationCheck =
    | Safe
      /** The `InputError` raised, with the offending characters. */
    | Unsafe(message: string, forbidden: string)

  /** Python's `','.join(chars)`. */
  function JoinChars(chars: string): string
    decreases |chars|
  {
    if chars == [] then ""
    else if |chars| == 1 then chars
    else [chars[0], ','] + JoinChars(chars[1..])
  }

  /** checkoperation: accepts the operation iff no forbidden sign survives the
      deletion of the whitelisted words; otherwise reports those signs. */
  function CheckOperation(operation: string): (r: OperationCheck)
    ensures r.Safe? <==> forall c | c in StripWords(operation, AllowedWords) :: c in AllowedSigns
    ensures r.Unsafe? ==> |r.forbidden| > 0 && forall c | c in r.forbidden :: c !in AllowedSigns
    ensures r.Unsafe? ==> IsSubsequence(r.forbidden, operation)
    // line 435: every character left that is not an allowed sign is reported,
    // as often as it is left, in the order it is left
    ensures r.Unsafe? ==> forall c | c in StripWords(operation, AllowedWords) && c !in AllowedSigns :: c in r.forbidden
    ensures r.Unsafe? ==> forall c :: multiset(r.forbidden)[c] == if IsForbidden(c) then multiset(StripWords(operation, AllowedWords))[c] else 0
    ensures r.Unsafe? ==> IsSubsequence(r.forbidden, StripWords(operation, AllowedWords))
  {
    var stripped := StripWords(operation, AllowedWords);
    var forbidden := Filter(stripped, IsForbidden);
    FilterIsSubsequence(stripped, IsForbidden);
    FilterMembers(stripped, IsForbidden);
    FilterCounts(stripped, IsForbidden);
    StripWordsSubsequence(operation, AllowedWords);
    SubsequenceTrans(forbidden, stripped, operation);
    if |forbidden| > 0 then
      assert forbidden[0] in forbidden;
      Unsafe("operation: " + operation + " uses signs which are not allowed: " + JoinChars(forbidden) + ".", forbidden)
    else
      Safe
  }

  /** The verdict of checkoperation from the text that remains and its forbidden signs. */
  lemma Verdict(operation: string, stripped: string, forbidden: string)
    requires StripWords(operation, AllowedWords) == stripped
    requires Filter(stripped, IsForbidden) == forbidden
    ensures CheckOperation(operation).Unsafe? <==> forbidden != []
    ensures CheckOperation(operation).Unsafe? ==> CheckOperation(operation).forbidden == forbidden
  {
  }

  /** An operation written only with allowed signs always passes. */
  lemma SignsOnlyPass(operation: string)
    requires forall c | c in operation :: c in AllowedSigns
    ensures CheckOperation(operation) == Safe
  {
    var stripped := StripWords(operation, AllowedWords);
    StripWordsSubsequence(operation, AllowedWords);
    SubsequenceElements(stripped, operation);
  }

  /** Words holding a character absent from `s` delete nothing. */
  lemma {:induction false} StripAbsent(s: string, words: seq<string>)
    requires NonEmptyWords(words)
    requires forall i | 0 <= i < |words| :: exists c :: c in words[i] && c !in s
    ensures StripWords(s, words) == s
    decreases |words|
  {
    if words != [] {
      var c :| c in words[0] && c !in s;
      ReplaceAbsent(s, words[0], c);
      StripAbsent(s, words[1..]);
    }
  }

  /** The whitelist applied word by word. */
  lemma StripAllowedWords(s: string)
    ensures StripWords(s, AllowedWords) ==
      ReplaceAll(ReplaceAll(ReplaceAll(ReplaceAll(ReplaceAll(ReplaceAll(ReplaceAll(
        s, "second_file"), "file"), "sum"), "min"), "max"), "log1p"), "log")
  {
    var w := AllowedWords;
    assert w[1..] == ["file", "sum", "min", "max", "log1p", "log"];
    assert w[1..][1..] == ["sum", "min", "max", "log1p", "log"];
    assert w[1..][1..][1..] == ["min", "max", "log1p", "log"];
    assert w[1..][1..][1..][1..] == ["max", "log1p", "log"];
    assert w[1..][1..][1..][1..][1..] == ["log1p", "log"];
    assert w[1..][1..][1..][1..][1..][1..] == ["log"];
    assert w[1..][1..][1..][1..][1..][1..][1..] == [];
  }

  /** The words after "file" in the whitelist. */
  lemma StripAfterFile(s: string, s2: string)
    requires s2 == ReplaceAll(ReplaceAll(s, "second_file"), "file")
    requires 'u' !in s2 && 'n' !in s2 && 'x' !in s2 && 'g' !in s2
    ensures StripWords(s, AllowedWords) == s2
  {
    StripAllowedWords(s);
    ReplaceAbsent(s2, "sum", 'u');
    ReplaceAbsent(s2, "min", 'n');
    ReplaceAbsent(s2, "max", 'x');
    ReplaceAbsent(s2, "log1p", 'g');
    ReplaceAbsent(s2, "log", 'g');
  }

  lemma StripSecondFile(s: string, e: string)
    requires s == "second_file" && e == ""
    ensures StripWords(s, AllowedWords) == e
  {
    StripAllowedWords(s);
    ReplaceSingle(s, e, "second_file", e, 's');
  }

  /** StripWords over the whitelist, one intermediate result per word. */
  lemma StripSteps(s: string, s1: string, s2: string, s3: string, s4: string, s5: string, s6: string, s7: string)
    requires s1 == ReplaceAll(s, "second_file") && s2 == ReplaceAll(s1, "file")
    requires s3 == ReplaceAll(s2, "sum") && s4 == ReplaceAll(s3, "min")
    requires s5 == ReplaceAll(s4, "max") && s6 == ReplaceAll(s5, "log1p")
    requires s7 == ReplaceAll(s6, "log")
    ensures StripWords(s, AllowedWords) == s7
  {
    StripAllowedWords(s);
  }

  /** A string without allowed signs is reported whole. */
  lemma {:induction false} FilterAllForbidden(s: string)
    requires forall c | c in s :: c !in AllowedSigns
    ensures Filter(s, IsForbidden) == s
    decreases |s|
  {
    if s != [] {
      FilterAllForbidden(s[1..]);
    }
  }

  lemma SecondFilePasses(operation: string)
    requires operation == "second_file"
    ensures CheckOperation(operation) == Safe
  {
    ReplaceSingle(operation, "", "second_file", "", 's');
    StripSteps(operation, "", "", "", "", "", "", "");
  }

  // The Remove... lemmas below are `ReplaceSingle` on one literal each. Each
  // step gets a proof context of its own: made at the use sites, the calls
  // let the solver unfold the whole literal there, which costs far more.
  lemma RemoveFileInLog1p(s: string)
    requires s == "log1p(file)"
    ensures ReplaceAll(s, "file") == "log1p()"
  {
    ReplaceSingle(s, "log1p(", "file", ")", 'f');
  }

  lemma RemoveLog1p(s: string)
    requires s == "log1p()"
    ensures ReplaceAll(s, "log1p") == "()"
  {
    ReplaceSingle(s, "", "log1p", "()", 'l');
  }

  lemma Log1pOfFilePasses(operation: string)
    requires operation == "log1p(file)"
    ensures CheckOperation(operation) == Safe
  {
    var s := operation;
    ReplaceAbsent(s, "second_file", 's');
    RemoveFileInLog1p(s);
    var s2 := ReplaceAll(s, "file");
    ReplaceAbsent(s2, "sum", 's');
    ReplaceAbsent(s2, "min", 'm');
    ReplaceAbsent(s2, "max", 'm');
    RemoveLog1p(s2);
    var s6 := ReplaceAll(s2, "log1p");
    ReplaceAbsent(s6, "log", 'l');
    StripSteps(s, s, s2, s2, s2, s2, s6, s6);
  }

  lemma RemoveSecondFile(s: string)
    requires s == "file + second_file * 2.5"
    ensures ReplaceAll(s, "second_file") == "file +  * 2.5"
  {
    ReplaceSingle(s, "file + ", "second_file", " * 2.5", 's');
  }

  lemma RemoveFirstFile(s: string)
    requires s == "file +  * 2.5"
    ensures ReplaceAll(s, "file") == " +  * 2.5"
  {
    ReplaceSingle(s, "", "file", " +  * 2.5", 'f');
  }

  lemma TwoFilesFirstWords(s: string)
    requires s == "file + second_file * 2.5"
    ensures ReplaceAll(ReplaceAll(s, "second_file"), "file") == " +  * 2.5"
  {
    RemoveSecondFile(s);
    RemoveFirstFile(ReplaceAll(s, "second_file"));
  }

  lemma TwoFilesStrip(s: string, s2: string)
    requires s == "file + second_file * 2.5" && s2 == " +  * 2.5"
    ensures StripWords(s, AllowedWords) == s2
  {
    TwoFilesFirstWords(s);
    StripAfterFile(s, s2);
  }

  lemma TwoFilesPass(operation: string)
    requires operation == "file + second_file * 2.5"
    ensures CheckOperation(operation) == Safe
  {
    var rest := " +  * 2.5";
    TwoFilesStrip(operation, rest);
    assert forall c | c in rest :: c in AllowedSigns;
  }

  lemma KeepSplicedFile(s: string)
    requires s == "fisumle"
    ensures ReplaceAll(s, "file") == s
  {
    assert s[..4][2] != "file"[2];
    ReplaceAbsent(s[1..], "file", 'f');
  }

  lemma RemoveSum(s: string)
    requires s == "fisumle"
    ensures ReplaceAll(s, "sum") == "file"
  {
    ReplaceSingle(s, "fi", "sum", "le", 's');
  }

  lemma SplicedStrip(s: string)
    requires s == "fisumle"
    ensures StripWords(s, AllowedWords) == "file"
  {
    ReplaceAbsent(s, "second_file", 'o');
    KeepSplicedFile(s);
    RemoveSum(s);
    var s3 := ReplaceAll(s, "sum");
    ReplaceAbsent(s3, "min", 'm');
    ReplaceAbsent(s3, "max", 'm');
    ReplaceAbsent(s3, "log1p", 'o');
    ReplaceAbsent(s3, "log", 'o');
    StripSteps(s, s, s, s3, s3, s3, s3, s3);
  }

  /** The letters of "file" are all reported. */
  lemma LettersForbidden(w: string)
    requires w == "file"
    ensures Filter(w, IsForbidden) == w
  {
    FilterAllForbidden(w);
  }

  /** Deleting "sum" splices a "file" that is never deleted afterwards. */
  lemma SplicedWordRejected(operation: string)
    requires operation == "fisumle"
    ensures CheckOperation(operation).Unsafe?
    ensures CheckOperation(operation).forbidden == "file"
  {
    var stripped := "file";
    SplicedStrip(operation);
    LettersForbidden(stripped);
    Verdict(operation, stripped, stripped);
  }

  lemma RemoveFileInShellCode(s: string)
    requires s == "file; import os"
    ensures ReplaceAll(s, "file") == "; import os"
  {
    ReplaceSingle(s, "", "file", "; import os", 'f');
  }

  lemma FilterOfFour(a: string, b: string, c: string, d: string, keep: char -> bool)
    ensures Filter(a + b + (c + d), keep) == Filter(a, keep) + Filter(b, keep) + (Filter(c, keep) + Filter(d, keep))
  {
    FilterConcat(a + b, c + d, keep);
    FilterConcat(a, b, keep);
    FilterConcat(c, d, keep);
  }

  lemma ShellCodeParts(s: string)
    requires s == "; import os"
    ensures s == "; " + "import" + (" " + "os")
  {
  }

  lemma FilterSemicolon(a: string)
    requires a == "; "
    ensures Filter(a, IsForbidden) == ";"
  {
  }

  lemma FilterSpace(c: string)
    requires c == " "
    ensures Filter(c, IsForbidden) == ""
  {
  }

  lemma ShellCodeSigns(s: string, a: string, b: string, c: string, d: string)
    requires s == a + b + (c + d)
    requires a == "; " && b == "import" && c == " " && d == "os"
    ensures Filter(s, IsForbidden) == ";importos"
  {
    FilterOfFour(a, b, c, d, IsForbidden);
    FilterSemicolon(a);
    FilterSpace(c);
    FilterAllForbidden(b);
    FilterAllForbidden(d);
  }

  lemma ShellCodeFirstWords(s: string)
    requires s == "file; import os"
    ensures ReplaceAll(ReplaceAll(s, "second_file"), "file") == "; import os"
  {
    ReplaceAbsent(s, "second_file", 'c');
    RemoveFileInShellCode(s);
  }

  lemma ShellCodeStrip(s: string)
    requires s == "file; import os"
    ensures StripWords(s, AllowedWords) == "; import os"
  {
    var s2 := "; import os";
    ShellCodeFirstWords(s);
    ShellCodeRest(s, ReplaceAll(s, "second_file"), s2);
  }

  lemma ShellCodeRest(s: string, s1: string, s2: string)
    requires s1 == ReplaceAll(s, "second_file") && s2 == ReplaceAll(s1, "file")
    requires s2 == "; import os"
    ensures StripWords(s, AllowedWords) == s2
  {
    StripAfterFile(s, s2);
  }

  /** Every character outside the signs and the words is reported. */
  lemma ShellCodeRejected(operation: string)
    requires operation == "file; import os"
    ensures CheckOperation(operation).Unsafe?
    ensures CheckOperation(operation).forbidden == ";importos"
  {
    var stripped := StripWords(operation, AllowedWords);
    ShellCodeStrip(operation);
    ShellCodeParts(stripped);
    ShellCodeSigns(stripped, "; ", "import", " ", "os");
    Verdict(operation, stripped, Filter(stripped, IsForbidden));
  }

  lemma RemoveFileFirst(s: string)
    requires s == "second_file"
    ensures ReplaceAll(s, "file") == "second_"
  {
    ReplaceSingle(s, "second_", "file", "", 'f');
  }

  /** Deleting "file" before "second_file" would leave "second_" behind. */
  lemma WordOrderMatters(s: string, words: seq<string>)
    requires s == "second_file" && words == ["file", "second_file"]
    ensures StripWords(s, words) == "second_"
  {
    RemoveFileFirst(s);
    ReplaceAbsent(ReplaceAll(s, "file"), "second_file", 'f');
    assert words[1..] == ["second_file"];
    assert StripWords(s, words) == StripWords(ReplaceAll(s, "file"), ["second_file"]);
  }
}

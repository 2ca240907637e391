/** Text analysis: normalization followed by splitting into maximal alphanumeric runs.

    Unicode normalization, case folding and the alphanumeric test belong to the Python
    runtime, so they are parameters of the analyzer rather than definitions here. */
module Analysis {
  import opened Basics

  datatype Analyzer = Analyzer(normalize: Text -> Text, isAlnum: char -> bool) {

    function Analyze(text: Text): seq<Term> {
      Tokens(normalize(text), isAlnum)
    }
  }

  // ---------------------------------------------------------------------------
  // Specification
  // ---------------------------------------------------------------------------

  function Tokens(text: Text, isAlnum: char -> bool): seq<Term> {
    Scan("", text, isAlnum)
  }

  /** The tokens of `rest`, given that `current` is the run in progress before it. */
  function Scan(current: Term, rest: Text, isAlnum: char -> bool): seq<Term>
    decreases |rest|
  {
    if rest == "" then
      if current == "" then [] else [current]
    else if isAlnum(rest[0]) then
      Scan(current + [rest[0]], rest[1..], isAlnum)
    else if current == "" then
      Scan("", rest[1..], isAlnum)
    else
      [current] + Scan("", rest[1..], isAlnum)
  }

  ghost predicate AlnumBetween(text: Text, from: nat, to: nat, isAlnum: char -> bool)
    requires to <= |text|
  {
    forall i :: from <= i < to ==> isAlnum(text[i])
  }

  ghost predicate AllAlnum(text: Text, isAlnum: char -> bool) {
    AlnumBetween(text, 0, |text|, isAlnum)
  }

  datatype Run = Run(from: nat, to: nat)

  /** `text[from..to]` is a non-empty alphanumeric run that cannot be extended either way. */
  ghost predicate IsRun(text: Text, r: Run, isAlnum: char -> bool) {
    && r.from < r.to <= |text|
    && AlnumBetween(text, r.from, r.to, isAlnum)
    && (r.from == 0 || !isAlnum(text[r.from - 1]))
    && (r.to == |text| || !isAlnum(text[r.to]))
  }

  ghost predicate Increasing(runs: seq<Run>) {
    forall i, j :: 0 <= i < j < |runs| ==> runs[i].from < runs[j].from
  }

  ghost predicate Slices(text: Text, tokens: seq<Term>, runs: seq<Run>)
    requires |tokens| == |runs|
  {
    forall i :: 0 <= i < |runs| ==>
      runs[i].from <= runs[i].to <= |text| && tokens[i] == text[runs[i].from..runs[i].to]
  }

  /** `runs` lists exactly the maximal runs of `text` that start at `low` or later, left to
      right, and `tokens` are their contents. */
  ghost predicate ListsRuns(
    text: Text, isAlnum: char -> bool, low: nat, tokens: seq<Term>, runs: seq<Run>)
  {
    && |tokens| == |runs|
    && Increasing(runs)
    && (forall r :: r in runs <==> r.from >= low && IsRun(text, r, isAlnum))
    && Slices(text, tokens, runs)
  }

  /** Analysis is tokenization of the normalized text: its terms are the maximal runs of that,
      so texts that normalize alike are analyzed alike. */
  lemma AnalysisNormalizesFirst(a: Analyzer, text: Text, other: Text) returns (runs: seq<Run>)
    ensures ListsRuns(a.normalize(text), a.isAlnum, 0, a.Analyze(text), runs)
    ensures a.normalize(text) == a.normalize(other) ==> a.Analyze(text) == a.Analyze(other)
  {
    runs := TokensAreMaximalRuns(a.normalize(text), a.isAlnum);
  }

  // ---------------------------------------------------------------------------
  // The scanner
  // ---------------------------------------------------------------------------

  method Tokenize(text: Text, isAlnum: char -> bool) returns (tokens: seq<Term>)
    ensures tokens == Tokens(text, isAlnum)
    ensures exists runs :: ListsRuns(text, isAlnum, 0, tokens, runs)
  {
    tokens := [];
    var current: Term := "";
    var i := 0;
    while i < |text|
      invariant 0 <= i <= |text|
      invariant Tokens(text, isAlnum) == tokens + Scan(current, text[i..], isAlnum)
    {
      var character := text[i];
      assert text[i..][1..] == text[i + 1..];
      if isAlnum(character) {
        current := current + [character];
      } else if current != "" {
        tokens := tokens + [current];
        current := "";
      }
      i := i + 1;
    }
    if current != "" {
      tokens := tokens + [current];
    }
    var _ := TokensAreMaximalRuns(text, isAlnum);
  }

  // ---------------------------------------------------------------------------
  // Tokens are exactly the maximal runs
  // ---------------------------------------------------------------------------

  lemma TokensAreMaximalRuns(text: Text, isAlnum: char -> bool) returns (runs: seq<Run>)
    ensures ListsRuns(text, isAlnum, 0, Tokens(text, isAlnum), runs)
  {
    assert text[0..0] == "" && text[0..] == text;
    runs := ScanListsRuns(text, isAlnum, 0, 0);
  }

  lemma {:induction false} ScanListsRuns(text: Text, isAlnum: char -> bool, low: nat, i: nat)
    returns (runs: seq<Run>)
    requires low <= i <= |text|
    requires AlnumBetween(text, low, i, isAlnum)
    requires low == 0 || !isAlnum(text[low - 1])
    ensures ListsRuns(text, isAlnum, low, Scan(text[low..i], text[i..], isAlnum), runs)
    decreases |text| - i
  {
    if i == |text| {
      NoRunAtEnd(text, isAlnum);
      runs := PrependRun(text, isAlnum, low, i, [], []);
    } else {
      assert text[i..][1..] == text[i + 1..];
      if isAlnum(text[i]) {
        assert text[low..i] + [text[i]] == text[low..i + 1];
        runs := ScanListsRuns(text, isAlnum, low, i + 1);
      } else {
        assert text[i + 1..i + 1] == "";
        var later := ScanListsRuns(text, isAlnum, i + 1, i + 1);
        NoRunAtSeparator(text, isAlnum, i, Scan("", text[i + 1..], isAlnum), later);
        runs := PrependRun(text, isAlnum, low, i, Scan("", text[i + 1..], isAlnum), later);
      }
    }
  }

  lemma NoRunAtEnd(text: Text, isAlnum: char -> bool)
    ensures ListsRuns(text, isAlnum, |text|, [], [])
  {
  }

  lemma NoRunAtSeparator(
    text: Text, isAlnum: char -> bool, i: nat, tokens: seq<Term>, runs: seq<Run>)
    requires i < |text| && !isAlnum(text[i])
    requires ListsRuns(text, isAlnum, i + 1, tokens, runs)
    ensures ListsRuns(text, isAlnum, i, tokens, runs)
  {
    assert forall r: Run :: r.from == i ==> !IsRun(text, r, isAlnum);
  }

  /** Puts the stretch `low..i`, when it is non-empty, before the runs that start later. */
  lemma PrependRun(
    text: Text, isAlnum: char -> bool, low: nat, i: nat,
    tokens: seq<Term>, later: seq<Run>)
    returns (runs: seq<Run>)
    requires low <= i <= |text|
    requires AlnumBetween(text, low, i, isAlnum)
    requires low == 0 || !isAlnum(text[low - 1])
    requires i == |text| || !isAlnum(text[i])
    requires ListsRuns(text, isAlnum, i, tokens, later)
    ensures ListsRuns(text, isAlnum, low,
              if low == i then tokens else [text[low..i]] + tokens, runs)
  {
    if low == i {
      runs := later;
    } else {
      runs := [Run(low, i)] + later;
      OnlyRunFrom(text, isAlnum, low, i);
      PrependOne(Run(low, i), later);
      forall r ensures r in runs <==> r.from >= low && IsRun(text, r, isAlnum) {
        assert r in later <==> r.from >= i && IsRun(text, r, isAlnum);
      }
      PrependSlices(text, [text[low..i]] + tokens, runs);
    }
  }

  lemma PrependOne(first: Run, later: seq<Run>)
    requires Increasing(later) && forall r :: r in later ==> r.from > first.from
    ensures Increasing([first] + later)
    ensures forall r :: r in [first] + later <==> r == first || r in later
  {
    assert forall k :: 0 <= k < |later| ==> later[k] in later;
  }

  lemma PrependSlices(text: Text, tokens: seq<Term>, runs: seq<Run>)
    requires |tokens| == |runs| > 0
    requires runs[0].from <= runs[0].to <= |text| && tokens[0] == text[runs[0].from..runs[0].to]
    requires Slices(text, tokens[1..], runs[1..])
    ensures Slices(text, tokens, runs)
  {
    forall i | 0 < i < |runs|
      ensures runs[i].from <= runs[i].to <= |text| && tokens[i] == text[runs[i].from..runs[i].to]
    {
      assert runs[1..][i - 1] == runs[i] && tokens[1..][i - 1] == tokens[i];
    }
  }

  /** Inside an alphanumeric stretch that stops at `i`, the only run is the stretch itself. */
  lemma OnlyRunFrom(text: Text, isAlnum: char -> bool, low: nat, i: nat)
    requires low <= i <= |text|
    requires AlnumBetween(text, low, i, isAlnum)
    requires low == 0 || !isAlnum(text[low - 1])
    requires i == |text| || !isAlnum(text[i])
    ensures forall r: Run :: low <= r.from < i ==> (IsRun(text, r, isAlnum) <==> r == Run(low, i))
  {
  }

  /** The maximal runs determine the token list: nothing else meets the specification. */
  lemma TokenizationIsUnique(
    text: Text, isAlnum: char -> bool,
    tokens: seq<Term>, runs: seq<Run>)
    requires ListsRuns(text, isAlnum, 0, tokens, runs)
    ensures tokens == Tokens(text, isAlnum)
  {
    var other := TokensAreMaximalRuns(text, isAlnum);
    IncreasingListsAgree(runs, other);
  }

  lemma SomeMember<T>(s: seq<T>)
    requires s != []
    ensures exists x :: x in s
  {
    assert s[0] in s;
  }

  lemma {:induction false} IncreasingListsAgree(a: seq<Run>, b: seq<Run>)
    requires Increasing(a) && Increasing(b)
    requires forall r :: r in a <==> r in b
    ensures a == b
    decreases |a|
  {
    if a == [] {
      if b != [] {
        SomeMember(b);
        assert false;
      }
    } else {
      assert a[0] in b && a[0] in a;
      assert b[0] in a;
      var i :| 0 <= i < |b| && b[i] == a[0];
      var j :| 0 <= j < |a| && a[j] == b[0];
      assert a[0] == b[0];
      forall r ensures r in a[1..] <==> r in b[1..] {
        assert r in a <==> r == a[0] || r in a[1..];
        assert r in b <==> r == b[0] || r in b[1..];
        assert a[0] !in a[1..] && b[0] !in b[1..];
      }
      IncreasingListsAgree(a[1..], b[1..]);
      assert a == [a[0]] + a[1..] && b == [b[0]] + b[1..];
    }
  }

  // ---------------------------------------------------------------------------
  // Algebra of tokenization
  // ---------------------------------------------------------------------------

  function Concat(tokens: seq<Term>): Text {
    if tokens == [] then "" else tokens[0] + Concat(tokens[1..])
  }

  function AlnumFilter(text: Text, isAlnum: char -> bool): Text {
    if text == "" then ""
    else (if isAlnum(text[0]) then [text[0]] else "") + AlnumFilter(text[1..], isAlnum)
  }

  ghost predicate AllWords(tokens: seq<Term>, isAlnum: char -> bool) {
    forall w :: w in tokens ==> w != "" && AllAlnum(w, isAlnum)
  }

  /** Nothing alphanumeric is lost, duplicated or reordered. */
  lemma TokensKeepEveryAlnum(text: Text, isAlnum: char -> bool)
    ensures Concat(Tokens(text, isAlnum)) == AlnumFilter(text, isAlnum)
    ensures AllWords(Tokens(text, isAlnum), isAlnum)
  {
    ScanConcat("", text, isAlnum);
    ScanWords("", text, isAlnum);
  }

  lemma {:induction false} ScanConcat(current: Term, rest: Text, isAlnum: char -> bool)
    ensures Concat(Scan(current, rest, isAlnum)) == current + AlnumFilter(rest, isAlnum)
    decreases |rest|
  {
    if rest == "" {
      assert current + "" == current;
    } else if isAlnum(rest[0]) {
      ScanConcat(current + [rest[0]], rest[1..], isAlnum);
    } else {
      ScanConcat("", rest[1..], isAlnum);
      var tail := Scan("", rest[1..], isAlnum);
      assert ([current] + tail)[1..] == tail;
    }
  }

  lemma {:induction false} ScanWords(current: Term, rest: Text, isAlnum: char -> bool)
    requires AllAlnum(current, isAlnum)
    ensures AllWords(Scan(current, rest, isAlnum), isAlnum)
    decreases |rest|
  {
    if rest != "" {
      if isAlnum(rest[0]) {
        ScanWords(current + [rest[0]], rest[1..], isAlnum);
      } else {
        ScanWords("", rest[1..], isAlnum);
      }
    }
  }

  /** A separator splits the text: no token reaches across it. */
  lemma TokensSplitAtSeparator(a: Text, separator: char, b: Text, isAlnum: char -> bool)
    requires !isAlnum(separator)
    ensures Tokens(a + [separator] + b, isAlnum) == Tokens(a, isAlnum) + Tokens(b, isAlnum)
  {
    ScanSplitsAtSeparator("", a, separator, b, isAlnum);
  }

  lemma {:induction false} ScanSplitsAtSeparator(
    current: Term, a: Text, separator: char, b: Text, isAlnum: char -> bool)
    requires !isAlnum(separator)
    ensures Scan(current, a + [separator] + b, isAlnum)
         == Scan(current, a, isAlnum) + Scan("", b, isAlnum)
    decreases |a|
  {
    var whole := a + [separator] + b;
    if a == "" {
      assert whole[1..] == b;
    } else {
      assert whole[1..] == a[1..] + [separator] + b;
      if isAlnum(a[0]) {
        ScanSplitsAtSeparator(current + [a[0]], a[1..], separator, b, isAlnum);
      } else {
        ScanSplitsAtSeparator("", a[1..], separator, b, isAlnum);
      }
    }
  }

  function Join(tokens: seq<Term>, separator: char): Text {
    if tokens == [] then ""
    else if |tokens| == 1 then tokens[0]
    else tokens[0] + [separator] + Join(tokens[1..], separator)
  }

  /** Round trip: joining tokens with any separator and tokenizing again changes nothing. */
  lemma RetokenizeIsIdentity(text: Text, separator: char, isAlnum: char -> bool)
    requires !isAlnum(separator)
    ensures Tokens(Join(Tokens(text, isAlnum), separator), isAlnum) == Tokens(text, isAlnum)
  {
    TokensKeepEveryAlnum(text, isAlnum);
    TokensOfJoin(Tokens(text, isAlnum), separator, isAlnum);
  }

  lemma {:induction false} TokensOfJoin(tokens: seq<Term>, separator: char, isAlnum: char -> bool)
    requires !isAlnum(separator)
    requires AllWords(tokens, isAlnum)
    ensures Tokens(Join(tokens, separator), isAlnum) == tokens
  {
    if tokens != [] {
      ScanWord("", tokens[0], isAlnum);
      assert "" + tokens[0] == tokens[0];
      if |tokens| == 1 {
        assert tokens == [tokens[0]];
      } else {
        assert forall w :: w in tokens[1..] ==> w in tokens;
        TokensOfJoin(tokens[1..], separator, isAlnum);
        TokensSplitAtSeparator(tokens[0], separator, Join(tokens[1..], separator), isAlnum);
        assert tokens == [tokens[0]] + tokens[1..];
      }
    }
  }

  lemma {:induction false} ScanWord(current: Term, word: Term, isAlnum: char -> bool)
    requires AllAlnum(word, isAlnum) && current + word != ""
    ensures Scan(current, word, isAlnum) == [current + word]
    decreases |word|
  {
    if word == "" {
      assert current + word == current;
    } else {
      ScanWord(current + [word[0]], word[1..], isAlnum);
      assert current + [word[0]] + word[1..] == current + word;
    }
  }
}

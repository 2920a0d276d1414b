/** `toTitleCase`, defined identically in src/store/vehicleStore.ts and
    scripts/seo/generate-sitemaps.mjs: lowercase, split on whitespace runs,
    uppercase the first character of every part, join with single spaces,
    trim. */
module TitleCase {
  import opened Text

  predicate IsWordChar(c: char) { !IsSpace(c) }

  predicate NoSpace(w: string) {
    forall j :: 0 <= j < |w| ==> !IsSpace(w[j])
  }

  /** `split(/\s+/)`: the pieces between maximal whitespace runs. A leading
      run yields an empty first piece and a trailing run an empty last one,
      so only the two ends can be empty. */
  function SplitWs(s: string): (parts: seq<string>)
    ensures |parts| >= 1
    decreases |s|
  {
    var word := TakeWhile(s, IsWordChar);
    var rest := s[|word|..];
    if rest == [] then [word] else [word] + SplitWs(DropWhile(rest, IsSpace))
  }

  /** The first piece holds no whitespace, and is non-empty when `s` does
      not start blank. */
  lemma FirstWord(s: string)
    ensures NoSpace(TakeWhile(s, IsWordChar))
    ensures s != [] && !IsSpace(s[0]) ==> TakeWhile(s, IsWordChar) != []
  {
    var word := TakeWhile(s, IsWordChar);
    CountWhileAll(s, IsWordChar);
    forall j | 0 <= j < |word| ensures !IsSpace(word[j]) {
      assert IsWordChar(word[j]);
    }
  }

  /** One step of `SplitWs`: the first piece, then the split of what
      follows the whitespace run after it. */
  lemma SplitWsStep(s: string)
    ensures var word := TakeWhile(s, IsWordChar);
      |word| == |s| ==> SplitWs(s) == [word]
    ensures var word := TakeWhile(s, IsWordChar);
      |word| < |s| ==> SplitWs(s) == [word] + SplitWs(DropWhile(s[|word|..], IsSpace))
  {
  }

  /** What `SplitWs` recurses on is a suffix of `s` that does not start blank. */
  lemma SplitWsNext(s: string)
    ensures var word := TakeWhile(s, IsWordChar);
      |word| < |s| ==> var next := DropWhile(s[|word|..], IsSpace);
        next == s[|s| - |next|..] && (next != [] ==> !IsSpace(next[0]))
  {
  }

  /** No piece holds whitespace. */
  lemma {:induction false} SplitWsNoSpace(s: string)
    ensures forall k :: 0 <= k < |SplitWs(s)| ==> NoSpace(SplitWs(s)[k])
    decreases |s|
  {
    SplitWsStep(s);
    FirstWord(s);
    var word := TakeWhile(s, IsWordChar);
    if |word| < |s| {
      SplitWsNoSpace(DropWhile(s[|word|..], IsSpace));
    }
  }

  /** Only the two ends can be empty; the first only when `s` starts blank. */
  lemma {:induction false} SplitWsInterior(s: string)
    ensures forall k :: 0 < k < |SplitWs(s)| - 1 ==> SplitWs(s)[k] != []
    ensures s != [] && !IsSpace(s[0]) ==> SplitWs(s)[0] != []
    decreases |s|
  {
    SplitWsStep(s);
    SplitWsNext(s);
    FirstWord(s);
    var word := TakeWhile(s, IsWordChar);
    if |word| < |s| {
      var next := DropWhile(s[|word|..], IsSpace);
      SplitWsInterior(next);
      var parts := SplitWs(s);
      var tail := SplitWs(next);
      forall k | 0 < k < |parts| - 1 ensures parts[k] != [] {
        assert parts[k] == tail[k - 1];
      }
    }
  }

  lemma NoUpperPrefix(s: string, k: nat)
    requires NoUpper(s) && k <= |s|
    ensures NoUpper(s[..k])
  {
    forall j | 0 <= j < k ensures !IsUpper(s[..k][j]) {
      assert s[..k][j] == s[j];
    }
  }

  lemma NoUpperSuffix(s: string, k: nat)
    requires NoUpper(s) && k <= |s|
    ensures NoUpper(s[k..])
  {
    forall j | 0 <= j < |s| - k ensures !IsUpper(s[k..][j]) {
      assert s[k..][j] == s[k + j];
    }
  }

  /** The pieces of a string without upper case have none either. */
  lemma {:induction false} SplitWsNoUpper(s: string)
    requires NoUpper(s)
    ensures forall k :: 0 <= k < |SplitWs(s)| ==> NoUpper(SplitWs(s)[k])
    decreases |s|
  {
    SplitWsStep(s);
    var w := CountWhile(s, IsWordChar);
    NoUpperPrefix(s, w);
    if w < |s| {
      var rest := s[w..];
      NoUpperSuffix(s, w);
      NoUpperSuffix(rest, CountWhile(rest, IsSpace));
      SplitWsNoUpper(DropWhile(rest, IsSpace));
    }
  }

  /** `part ? part[0].toUpperCase() + part.slice(1) : ''` */
  function Capitalize(part: string): (r: string)
    ensures |r| == |part|
    ensures part != [] ==> r[0] == UpperChar(part[0]) && r[1..] == part[1..]
  {
    if part == [] then [] else [UpperChar(part[0])] + part[1..]
  }

  /** `parts.map(capitalize)` */
  function CapitalizeAll(parts: seq<string>): (r: seq<string>)
    ensures |r| == |parts| && forall k :: 0 <= k < |parts| ==> r[k] == Capitalize(parts[k])
  {
    if parts == [] then [] else [Capitalize(parts[0])] + CapitalizeAll(parts[1..])
  }

  function ToTitleCase(value: string): string {
    var parts := SplitWs(Lower(value));
    Trim(Join(CapitalizeAll(parts), " "))
  }

  /** The case a title-cased character must have: not lower case at the
      start of a word, not upper case inside one. */
  predicate CaseOk(t: string, i: int)
    requires 0 <= i < |t|
  {
    if i == 0 || IsSpace(t[i - 1]) then !IsLower(t[i]) else !IsUpper(t[i])
  }

  predicate OnlyBlanks(t: string) {
    forall i :: 0 <= i < |t| ==> IsSpace(t[i]) ==> t[i] == ' '
  }

  /** Words separated by single spaces, no edge whitespace, each word
      capitalised and otherwise lower case. */
  predicate IsTitleCased(t: string) {
    && NoEdgeSpace(t)
    && OnlyBlanks(t)
    && NoRepeat(t, IsSpace)
    && forall i :: 0 <= i < |t| ==> CaseOk(t, i)
  }

  /** A capitalised word: no whitespace, and every position has its case. */
  predicate IsWord(w: string) {
    NoSpace(w) && forall j :: 0 <= j < |w| ==> CaseOk(w, j)
  }

  lemma CapitalizeWord(part: string)
    requires NoSpace(part)
    requires NoUpper(part)
    ensures IsWord(Capitalize(part))
  {
    var w := Capitalize(part);
    forall j | 0 <= j < |w| ensures CaseOk(w, j) {
      if j > 0 {
        assert w[j] == part[j];
      }
    }
  }

  /** What `Join(words, " ")` looks like at its first character. */
  lemma JoinHead(words: seq<string>)
    requires forall k :: 0 <= k < |words| ==> NoSpace(words[k])
    ensures var t := Join(words, " ");
      t != [] && IsSpace(t[0]) ==> |words| >= 2 && words[0] == []
  {
    var t := Join(words, " ");
    if t != [] && |words| >= 2 && words[0] != [] {
      assert t[0] == words[0][0];
    }
  }

  /** Joining capitalised words, of which only the two ends may be empty,
      gives single blanks between words and the right case everywhere. */
  lemma {:induction false} JoinShape(words: seq<string>)
    requires forall k :: 0 <= k < |words| ==> IsWord(words[k])
    requires forall k :: 0 < k < |words| - 1 ==> words[k] != []
    ensures var t := Join(words, " ");
      OnlyBlanks(t) && NoRepeat(t, IsSpace) && forall i :: 0 <= i < |t| ==> CaseOk(t, i)
    decreases |words|
  {
    if |words| >= 2 {
      var w := words[0];
      var tail := words[1..];
      var rest := Join(tail, " ");
      assert forall k :: 0 <= k < |tail| ==> IsWord(tail[k]);
      JoinShape(tail);
      var t := Join(words, " ");
      assert t == w + " " + rest;
      assert IsWord(w);
      forall k | 0 <= k < |tail| ensures NoSpace(tail[k]) {
        assert IsWord(tail[k]);
      }
      JoinHead(tail);
      assert rest != [] ==> !IsSpace(rest[0]) || |words| == 2;
      forall i | 0 <= i < |t| ensures CaseOk(t, i) {
        if i < |w| {
          assert CaseOk(w, i);
          assert t[i] == w[i];
          if i > 0 { assert t[i - 1] == w[i - 1]; }
        } else if i > |w| {
          var k := i - |w| - 1;
          assert t[i] == rest[k];
          assert CaseOk(rest, k);
          if k > 0 { assert t[i - 1] == rest[k - 1]; }
        }
      }
      forall i | 0 <= i < |t| - 1 ensures !PairAt(t, IsSpace, i) {
        if i < |w| {
          assert t[i] == w[i];
        } else if i > |w| {
          assert !PairAt(rest, IsSpace, i - |w| - 1);
        } else if |words| == 2 {
          assert t[i + 1] == tail[0][0];
        }
      }
    } else if |words| == 1 {
      assert IsWord(words[0]);
      var w := words[0];
      forall i | 0 <= i < |w| - 1 ensures !PairAt(w, IsSpace, i) {
      }
    }
  }

  /** Trimming keeps the blank and case structure of a joined title. */
  lemma TrimShape(t: string)
    requires OnlyBlanks(t) && NoRepeat(t, IsSpace)
    requires forall i :: 0 <= i < |t| ==> CaseOk(t, i)
    ensures IsTitleCased(Trim(t))
  {
    var a, b := TrimSlice(t);
    var r := Trim(t);
    TrimNoEdgeSpace(t);
    NoRepeatSlice(t, IsSpace, a, b);
    forall i | 0 <= i < |r| ensures CaseOk(r, i) && (IsSpace(r[i]) ==> r[i] == ' ') {
      assert r[i] == t[a + i];
      assert CaseOk(t, a + i);
      if i > 0 {
        assert r[i - 1] == t[a + i - 1];
      }
    }
  }

  /** Every output of `ToTitleCase` is title-cased. */
  lemma TitleCaseShape(value: string)
    ensures IsTitleCased(ToTitleCase(value))
  {
    var lowered := Lower(value);
    LowerIsLower(value);
    var parts := SplitWs(lowered);
    SplitWsNoSpace(lowered);
    SplitWsInterior(lowered);
    SplitWsNoUpper(lowered);
    assert NoUpper(lowered);
    assert forall k :: 0 <= k < |parts| ==> NoUpper(parts[k]);
    assert forall k :: 0 < k < |parts| - 1 ==> parts[k] != [];
    var words := CapitalizeAll(parts);
    forall k | 0 <= k < |words| ensures IsWord(words[k]) {
      CapitalizeWord(parts[k]);
    }
    forall k | 0 < k < |words| - 1 ensures words[k] != [] {
      assert parts[k] != [];
    }
    JoinShape(words);
    TrimShape(Join(words, " "));
  }

  /** A piece without blanks passes through `ReplaceRuns` unchanged. */
  lemma {:induction false} ReplaceRunsWord(w: string, t: string)
    requires NoSpace(w)
    ensures ReplaceRuns(w + t, IsSpace, ' ') == w + ReplaceRuns(t, IsSpace, ' ')
    decreases |w|
  {
    if w != [] {
      var u := w + t;
      assert u[0] == w[0] && u[1..] == w[1..] + t;
      ReplaceRunsKept(u);
      NoSpaceTail(w);
      ReplaceRunsWord(w[1..], t);
      var r := ReplaceRuns(t, IsSpace, ' ');
      assert ReplaceRuns(u, IsSpace, ' ') == [w[0]] + (w[1..] + r);
      assert [w[0]] + (w[1..] + r) == ([w[0]] + w[1..]) + r;
      assert [w[0]] + w[1..] == w;
    } else {
      assert w + t == t;
    }
  }

  lemma NoSpaceTail(w: string)
    requires w != [] && NoSpace(w)
    ensures !IsSpace(w[0]) && NoSpace(w[1..])
  {
    forall j | 0 <= j < |w| - 1 ensures !IsSpace(w[1..][j]) {
      assert w[1..][j] == w[j + 1];
    }
  }

  /** A non-blank character at the front is kept. */
  lemma ReplaceRunsKept(s: string)
    requires s != [] && !IsSpace(s[0])
    ensures ReplaceRuns(s, IsSpace, ' ') == [s[0]] + ReplaceRuns(s[1..], IsSpace, ' ')
  {
  }

  /** A blank run at the front becomes one space. */
  lemma ReplaceRunsBlank(s: string)
    requires s != [] && IsSpace(s[0])
    ensures ReplaceRuns(s, IsSpace, ' ') == " " + ReplaceRuns(DropWhile(s, IsSpace), IsSpace, ' ')
  {
  }

  lemma JoinCons(w: string, tail: seq<string>, sep: string)
    requires tail != []
    ensures Join([w] + tail, sep) == w + sep + Join(tail, sep)
  {
    assert ([w] + tail)[1..] == tail;
  }

  /** What follows the first piece is empty or starts a blank run, and
      dropping that run shortens it. */
  lemma RestStartsBlank(s: string)
    ensures var rest := s[|TakeWhile(s, IsWordChar)|..];
      rest != [] ==> IsSpace(rest[0]) && |DropWhile(rest, IsSpace)| < |rest|
  {
  }

  /** The first piece of `s` and what follows it: the rest is empty or
      starts blank, and `SplitWs` goes on after the blank run. */
  lemma WordRest(s: string)
    ensures var word := TakeWhile(s, IsWordChar);
      var rest := s[|word|..];
      && s == word + rest && NoSpace(word)
      && (rest == [] ==> SplitWs(s) == [word])
      && (rest != [] ==> IsSpace(rest[0]) && |DropWhile(rest, IsSpace)| < |s|
                         && SplitWs(s) == [word] + SplitWs(DropWhile(rest, IsSpace)))
  {
    var word := TakeWhile(s, IsWordChar);
    var rest := s[|word|..];
    FirstWord(s);
    RestStartsBlank(s);
    SplitWsStep(s);
    assert s == word + rest;
    assert rest == [] <==> |word| == |s|;
  }

  /** Splitting on blank runs and joining with one space is replacing every
      blank run by one space. */
  lemma {:induction false} JoinSplitWs(s: string)
    ensures Join(SplitWs(s), " ") == ReplaceRuns(s, IsSpace, ' ')
    decreases |s|
  {
    var word := TakeWhile(s, IsWordChar);
    var rest := s[|word|..];
    WordRest(s);
    ReplaceRunsWord(word, rest);
    if rest != [] {
      var next := DropWhile(rest, IsSpace);
      JoinSplitWs(next);
      JoinCons(word, SplitWs(next), " ");
      ReplaceRunsBlank(rest);
      var r := ReplaceRuns(next, IsSpace, ' ');
      assert word + " " + r == word + (" " + r);
    } else {
      assert word + rest == word;
    }
  }

  /** Lower-casing a capitalised piece without capitals gives it back. */
  lemma LowerCapitalize(part: string)
    requires NoUpper(part)
    ensures Lower(Capitalize(part)) == part
  {
    if part != [] {
      var r := Lower(Capitalize(part));
      assert r[0] == LowerChar(UpperChar(part[0])) == part[0];
      forall j | 1 <= j < |part| ensures r[j] == part[j] {
        assert Capitalize(part)[j] == Capitalize(part)[1..][j - 1];
      }
    }
  }

  /** Lower-casing the joined capitalised pieces gives the joined pieces. */
  lemma {:induction false} LowerJoinCapitalized(parts: seq<string>)
    requires forall k :: 0 <= k < |parts| ==> NoUpper(parts[k])
    ensures Lower(Join(CapitalizeAll(parts), " ")) == Join(parts, " ")
    decreases |parts|
  {
    if parts != [] {
      LowerCapitalize(parts[0]);
      if |parts| > 1 {
        var caps := CapitalizeAll(parts);
        assert caps[1..] == CapitalizeAll(parts[1..]);
        LowerJoinCapitalized(parts[1..]);
        LowerDistributes(caps[0] + " ", Join(caps[1..], " "));
        LowerDistributes(caps[0], " ");
      }
    }
  }

  /** Up to case, the title case is the lower-cased input with every blank
      run made one space and the ends trimmed: its words are the input's
      words, in order, and nothing else. */
  lemma TitleCaseWords(value: string)
    ensures Lower(ToTitleCase(value)) == Trim(ReplaceRuns(Lower(value), IsSpace, ' '))
  {
    var lowered := Lower(value);
    LowerIsLower(value);
    var parts := SplitWs(lowered);
    SplitWsNoUpper(lowered);
    LowerTrim(Join(CapitalizeAll(parts), " "));
    LowerJoinCapitalized(parts);
    JoinSplitWs(lowered);
  }

  /** A title-cased string is fixed by its lower case: the capitals go
      exactly at the word starts. */
  lemma TitleCasedUnique(t: string, u: string)
    requires IsTitleCased(t) && IsTitleCased(u) && Lower(t) == Lower(u)
    ensures t == u
  {
    forall i | 0 <= i < |t| ensures t[i] == u[i] {
      assert CaseOk(t, i) && CaseOk(u, i);
      assert LowerChar(t[i]) == LowerChar(u[i]);
      if i > 0 {
        assert LowerChar(t[i - 1]) == LowerChar(u[i - 1]);
      }
    }
  }

  /** So `ToTitleCase(value)` is the one title-cased string whose lower
      case has the words of `value` one space apart. */
  lemma TitleCaseDetermined(value: string, t: string)
    requires IsTitleCased(t) && Lower(t) == Trim(ReplaceRuns(Lower(value), IsSpace, ' '))
    ensures t == ToTitleCase(value)
  {
    TitleCaseShape(value);
    TitleCaseWords(value);
    TitleCasedUnique(t, ToTitleCase(value));
  }

  /** Title-casing looks only at the lower-cased input, so `petrol` and
      `PETROL` give the same result. */
  lemma TitleCaseIgnoresCase(value: string)
    ensures ToTitleCase(Lower(value)) == ToTitleCase(value)
  {
    LowerIsLower(value);
    LowerOfLower(Lower(value));
  }

  /** Strings that agree once lower-cased have the same title case. */
  lemma TitleCaseSameLower(a: string, b: string)
    requires Lower(a) == Lower(b)
    ensures ToTitleCase(a) == ToTitleCase(b)
  {
    TitleCaseIgnoresCase(a);
    TitleCaseIgnoresCase(b);
  }
}

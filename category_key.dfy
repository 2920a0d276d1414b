/** `normalizeCategoryKey` (src/utils/normalizeCategoryKey.ts): lower-case,
    put a space on each side of every `&`, collapse each whitespace run to
    one space and trim. The services page compares categories by this
    key. */
module CategoryKey {
  import opened Text

  /** `replace(/&/g, ' & ')` */
  function SpreadAmpersands(s: string): string {
    if s == [] then [] else (if s[0] == '&' then " & " else [s[0]]) + SpreadAmpersands(s[1..])
  }

  /** `normalizeCategoryKey` */
  function NormalizeCategoryKey(value: string): string {
    Trim(ReplaceRuns(SpreadAmpersands(Lower(value)), IsSpace, ' '))
  }

  predicate NotUpper(c: char) { !IsUpper(c) }

  /** The only whitespace character allowed is the space itself. */
  predicate BlankIfSpace(c: char) { c == ' ' || !IsSpace(c) }

  /** Every whitespace character is a single space with no whitespace next
      to it. */
  predicate SingleSpaces(s: string) {
    NoRepeat(s, IsSpace) && forall i :: 0 <= i < |s| ==> BlankIfSpace(s[i])
  }

  /** Every `&` has a space on each side, unless it is at that end of the
      string. */
  predicate AmpersandsSpaced(s: string) {
    forall i :: 0 <= i < |s| && s[i] == '&' ==>
      && (i == 0 || s[i - 1] == ' ')
      && (i == |s| - 1 || s[i + 1] == ' ')
  }

  /** What a key looks like: lower case, trimmed, single-spaced, and with
      spaced ampersands. */
  predicate IsCategoryKey(k: string) {
    NoUpper(k) && NoEdgeSpace(k) && SingleSpaces(k) && AmpersandsSpaced(k)
  }

  // ---------------------------------------------------------------------
  // Steps of the proof

  lemma SpreadCons(c: char, t: string)
    ensures SpreadAmpersands([c] + t) == (if c == '&' then " & " else [c]) + SpreadAmpersands(t)
  {
    assert ([c] + t)[1..] == t;
  }

  /** Spreading adds only spaces and ampersands, so a class holding of
      both and of every input character holds of the output. */
  lemma {:induction false} SpreadKeeps(s: string, q: char -> bool)
    requires q(' ') && q('&')
    requires forall i :: 0 <= i < |s| ==> q(s[i])
    ensures forall i :: 0 <= i < |SpreadAmpersands(s)| ==> q(SpreadAmpersands(s)[i])
  {
    if s != [] {
      SpreadKeeps(s[1..], q);
    }
  }

  /** Every `&` is strictly inside `r`, between two spaces. */
  predicate InsideSpaced(r: string) {
    forall i :: 0 <= i < |r| && r[i] == '&' ==> 0 < i < |r| - 1 && r[i - 1] == ' ' && r[i + 1] == ' '
  }

  /** After spreading, every `&` is strictly inside, between two spaces. */
  lemma {:induction false} SpreadSpaced(s: string)
    ensures InsideSpaced(SpreadAmpersands(s))
  {
    if s != [] {
      SpreadSpaced(s[1..]);
      var head := if s[0] == '&' then " & " else [s[0]];
      var tail := SpreadAmpersands(s[1..]);
      var r := SpreadAmpersands(s);
      assert r == head + tail;
      forall i | 0 <= i < |r| && r[i] == '&'
        ensures 0 < i < |r| - 1 && r[i - 1] == ' ' && r[i + 1] == ' '
      {
        if i < |head| {
          assert r[i] == head[i];
          assert head == " & " && i == 1;
          assert r[0] == head[0] && r[2] == head[2];
        } else {
          var j := i - |head|;
          assert r[i] == tail[j];
          assert 0 < j < |tail| - 1 && tail[j - 1] == ' ' && tail[j + 1] == ' ';
          assert r[i - 1] == tail[j - 1] && r[i + 1] == tail[j + 1];
        }
      }
    }
  }

  lemma SuffixSpaced(s: string, k: nat)
    requires AmpersandsSpaced(s) && k <= |s|
    ensures AmpersandsSpaced(s[k..])
  {
    var t := s[k..];
    forall i | 0 <= i < |t| && t[i] == '&'
      ensures (i == 0 || t[i - 1] == ' ') && (i == |t| - 1 || t[i + 1] == ' ')
    {
      assert s[k + i] == '&';
    }
  }

  lemma SliceSpaced(s: string, a: nat, b: nat)
    requires AmpersandsSpaced(s) && a <= b <= |s|
    ensures AmpersandsSpaced(s[a..b])
  {
    var t := s[a..b];
    forall i | 0 <= i < |t| && t[i] == '&'
      ensures (i == 0 || t[i - 1] == ' ') && (i == |t| - 1 || t[i + 1] == ' ')
    {
      assert s[a + i] == '&';
    }
  }

  lemma DropWhileIsSuffix(s: string)
    ensures DropWhile(s, IsSpace) == s[CountWhile(s, IsSpace)..]
  {
  }

  /** Collapsing whitespace runs keeps ampersands spaced. */
  lemma {:induction false} RunsKeepSpaced(s: string)
    requires AmpersandsSpaced(s)
    ensures AmpersandsSpaced(ReplaceRuns(s, IsSpace, ' '))
    decreases |s|
  {
    if s != [] {
      var k := if IsSpace(s[0]) then CountWhile(s, IsSpace) else 1;
      var t := s[k..];
      assert t == (if IsSpace(s[0]) then DropWhile(s, IsSpace) else s[1..]);
      SuffixSpaced(s, k);
      RunsKeepSpaced(t);
      var rest := ReplaceRuns(t, IsSpace, ' ');
      var c := if IsSpace(s[0]) then ' ' else s[0];
      var out := ReplaceRuns(s, IsSpace, ' ');
      assert out == [c] + rest;
      forall i | 0 <= i < |out| && out[i] == '&'
        ensures (i == 0 || out[i - 1] == ' ') && (i == |out| - 1 || out[i + 1] == ' ')
      {
        if i == 0 {
          if |out| > 1 {
            assert s[1] == ' ' && t == s[1..];
          }
        } else {
          assert rest[i - 1] == '&';
        }
      }
    }
  }

  lemma SingleSpacesSlice(s: string, a: nat, b: nat)
    requires SingleSpaces(s) && a <= b <= |s|
    ensures SingleSpaces(s[a..b])
  {
    NoRepeatSlice(s, IsSpace, a, b);
    assert forall i :: 0 <= i < b - a ==> s[a..b][i] == s[a + i];
  }

  /** A non-space character starts its own run. */
  lemma RunsCons(c: char, t: string)
    requires !IsSpace(c)
    ensures ReplaceRuns([c] + t, IsSpace, ' ') == [c] + ReplaceRuns(t, IsSpace, ' ')
  {
    assert ([c] + t)[1..] == t;
  }

  /** A lone whitespace character becomes one space. */
  lemma RunsSpace(c: char, t: string)
    requires IsSpace(c) && (t == [] || !IsSpace(t[0]))
    ensures ReplaceRuns([c] + t, IsSpace, ' ') == [' '] + ReplaceRuns(t, IsSpace, ' ')
  {
    var s := [c] + t;
    assert s[1..] == t;
    assert CountWhile(s, IsSpace) == 1;
    assert DropWhile(s, IsSpace) == t;
  }

  /** Whitespace in front of more whitespace disappears into its run. */
  lemma RunsDouble(c: char, t: string)
    requires IsSpace(c) && t != [] && IsSpace(t[0])
    ensures ReplaceRuns([c] + t, IsSpace, ' ') == ReplaceRuns(t, IsSpace, ' ')
  {
    var s := [c] + t;
    assert s[1..] == t;
    var n := CountWhile(t, IsSpace);
    assert CountWhile(s, IsSpace) == 1 + n;
    assert DropWhile(s, IsSpace) == s[1 + n..] == t[n..] == DropWhile(t, IsSpace);
  }

  /** The space spreading puts before a leading `&`. */
  function Lead(k: string): string {
    if k != [] && k[0] == '&' then " " else ""
  }

  /** The space spreading puts after a trailing `&`. */
  function Trail(k: string): string {
    if k != [] && k[|k| - 1] == '&' then " " else ""
  }

  /** Trailing padding depends only on the last character. */
  lemma TrailCons(c: char, t: string)
    requires t != []
    ensures Trail([c] + t) == Trail(t)
  {
  }

  /** The padding of `['&'] + t`, given the collapsed spread `u` of a
      space followed by `t`. */
  lemma AmpersandPadding(t: string, u: string)
    requires t == [] ==> u == " "
    requires t != [] ==> t[0] == ' ' && u == Lead(t) + t + Trail(t)
    ensures [' '] + (['&'] + u) == Lead(['&'] + t) + (['&'] + t) + Trail(['&'] + t)
  {
    if t != [] {
      TrailCons('&', t);
    }
  }

  /** The padding of `[' '] + t`, given the collapsed spread `rt` of `t`. */
  lemma SpacePadding(t: string, rt: string)
    requires rt == Lead(t) + t + Trail(t)
    ensures (if t != [] && t[0] == '&' then rt else [' '] + rt) == Lead([' '] + t) + ([' '] + t) + Trail([' '] + t)
  {
    if t != [] {
      TrailCons(' ', t);
    }
  }

  /** The padding of `[c] + t` for any other `c`. */
  lemma OtherPadding(c: char, t: string, rt: string)
    requires c != '&' && (t == [] || t[0] != '&')
    requires rt == Lead(t) + t + Trail(t)
    ensures [c] + rt == Lead([c] + t) + ([c] + t) + Trail([c] + t)
  {
    if t != [] {
      TrailCons(c, t);
    }
  }

  /** The step of `RunsOfSpread` for a leading `&`, which is followed by a
      space or nothing. */
  lemma AmpersandStep(t: string)
    requires t == [] || t[0] == ' '
    requires ReplaceRuns(SpreadAmpersands(t), IsSpace, ' ') == Lead(t) + t + Trail(t)
    ensures ReplaceRuns(SpreadAmpersands(['&'] + t), IsSpace, ' ') == Lead(['&'] + t) + (['&'] + t) + Trail(['&'] + t)
  {
    var st := SpreadAmpersands(t);
    var u := ReplaceRuns([' '] + st, IsSpace, ' ');
    SpreadAmpersandHead(t);
    RunsAroundAmpersand(st);
    SpaceBeforeSpread(t);
    AmpersandPadding(t, u);
  }

  /** A space before the spread of a string that starts with one merges
      into it. */
  lemma SpaceBeforeSpread(t: string)
    requires t == [] || t[0] == ' '
    ensures ReplaceRuns([' '] + SpreadAmpersands(t), IsSpace, ' ')
         == if t == [] then " " else ReplaceRuns(SpreadAmpersands(t), IsSpace, ' ')
  {
    if t == [] {
      RunsSpace(' ', []);
    } else {
      SpreadCons(t[0], t[1..]);
      assert t == [t[0]] + t[1..];
      RunsDouble(' ', SpreadAmpersands(t));
    }
  }

  lemma SpreadAmpersandHead(t: string)
    ensures SpreadAmpersands(['&'] + t) == [' '] + (['&'] + ([' '] + SpreadAmpersands(t)))
  {
    SpreadCons('&', t);
  }

  lemma RunsAroundAmpersand(st: string)
    ensures ReplaceRuns([' '] + (['&'] + ([' '] + st)), IsSpace, ' ')
         == [' '] + (['&'] + ReplaceRuns([' '] + st, IsSpace, ' '))
  {
    RunsSpace(' ', ['&'] + ([' '] + st));
    RunsCons('&', [' '] + st);
  }

  /** The step for a leading space, which is followed by something other
      than whitespace. */
  lemma SpaceStep(t: string)
    requires t == [] || !IsSpace(t[0])
    requires ReplaceRuns(SpreadAmpersands(t), IsSpace, ' ') == Lead(t) + t + Trail(t)
    ensures ReplaceRuns(SpreadAmpersands([' '] + t), IsSpace, ' ') == Lead([' '] + t) + ([' '] + t) + Trail([' '] + t)
  {
    var st := SpreadAmpersands(t);
    var rt := ReplaceRuns(st, IsSpace, ' ');
    SpreadCons(' ', t);
    if t == [] {
      RunsSpace(' ', []);
    } else {
      SpreadCons(t[0], t[1..]);
      assert t == [t[0]] + t[1..];
      if t[0] == '&' {
        RunsDouble(' ', st);
      } else {
        RunsSpace(' ', st);
      }
    }
    SpacePadding(t, rt);
  }

  /** The step for any other leading character, which is not followed by
      an `&`. */
  lemma OtherStep(c: char, t: string)
    requires !IsSpace(c) && c != '&'
    requires t == [] || t[0] != '&'
    requires ReplaceRuns(SpreadAmpersands(t), IsSpace, ' ') == Lead(t) + t + Trail(t)
    ensures ReplaceRuns(SpreadAmpersands([c] + t), IsSpace, ' ') == Lead([c] + t) + ([c] + t) + Trail([c] + t)
  {
    var st := SpreadAmpersands(t);
    SpreadCons(c, t);
    RunsCons(c, st);
    OtherPadding(c, t, ReplaceRuns(st, IsSpace, ' '));
  }

  /** What a single-spaced string with spaced ampersands says about its
      first two characters, and that its tail is one too. */
  lemma HeadFacts(k: string)
    requires k != [] && SingleSpaces(k) && AmpersandsSpaced(k)
    ensures var t := k[1..];
      && SingleSpaces(t) && AmpersandsSpaced(t)
      && (k[0] == '&' ==> t == [] || t[0] == ' ')
      && (IsSpace(k[0]) ==> k[0] == ' ' && (t == [] || !IsSpace(t[0])))
      && (!IsSpace(k[0]) && k[0] != '&' ==> t == [] || t[0] != '&')
  {
    var t := k[1..];
    SingleSpacesSlice(k, 1, |k|);
    assert k[1..|k|] == t;
    SuffixSpaced(k, 1);
    assert BlankIfSpace(k[0]);
    if t != [] {
      assert t[0] == k[1];
      assert !PairAt(k, IsSpace, 0);
    }
  }

  /** On a single-spaced string with spaced ampersands, spreading and then
      collapsing gives the string back, with a space added before a
      leading `&` and after a trailing one. */
  lemma {:induction false} RunsOfSpread(k: string)
    requires SingleSpaces(k) && AmpersandsSpaced(k)
    ensures ReplaceRuns(SpreadAmpersands(k), IsSpace, ' ') == Lead(k) + k + Trail(k)
    decreases |k|
  {
    if k != [] {
      var c, t := k[0], k[1..];
      HeadFacts(k);
      RunsOfSpread(t);
      assert k == [c] + t;
      if c == '&' {
        AmpersandStep(t);
      } else if IsSpace(c) {
        SpaceStep(t);
      } else {
        OtherStep(c, t);
      }
    }
  }

  /** Trimming removes exactly the whitespace added around a string with no
      whitespace at its edges. */
  lemma TrimPadded(lead: string, k: string, trail: string)
    requires forall i :: 0 <= i < |lead| ==> IsSpace(lead[i])
    requires forall i :: 0 <= i < |trail| ==> IsSpace(trail[i])
    requires NoEdgeSpace(k)
    ensures Trim(lead + k + trail) == k
  {
    var s := lead + k + trail;
    TrimEmpty(s);
    if k == [] {
      assert forall i :: 0 <= i < |s| ==> IsSpace(s[i]) by {
        forall i | 0 <= i < |s| ensures IsSpace(s[i]) {
          if i < |lead| { assert s[i] == lead[i]; } else { assert s[i] == trail[i - |lead|]; }
        }
      }
    } else {
      var a, b := TrimSlice(s);
      assert s[|lead|] == k[0];
      assert s[|lead| + |k| - 1] == k[|k| - 1];
      assert a < b;
      assert s[|lead|..|lead| + |k|] == k;
    }
  }

  // ---------------------------------------------------------------------
  // Properties

  /** Lower-casing and spreading: no upper case, and every `&` strictly
      inside between spaces. */
  lemma SpreadStage(value: string)
    ensures var y := SpreadAmpersands(Lower(value));
      NoUpper(y) && AmpersandsSpaced(y)
  {
    var x := Lower(value);
    LowerIsLower(value);
    SpreadKeeps(x, NotUpper);
    SpreadSpaced(x);
  }

  /** Collapsing the runs of a spread string. */
  lemma RunsStage(y: string)
    requires NoUpper(y) && AmpersandsSpaced(y)
    ensures var z := ReplaceRuns(y, IsSpace, ' ');
      NoUpper(z) && SingleSpaces(z) && AmpersandsSpaced(z)
  {
    ReplaceRunsKeeps(y, IsSpace, ' ', NotUpper);
    ReplaceRunsKeeps(y, IsSpace, ' ', BlankIfSpace);
    RunsKeepSpaced(y);
  }

  /** Trimming keeps what the runs stage established. */
  lemma TrimStage(z: string)
    requires NoUpper(z) && SingleSpaces(z) && AmpersandsSpaced(z)
    ensures IsCategoryKey(Trim(z))
  {
    var a, b := TrimSlice(z);
    TrimNoEdgeSpace(z);
    SingleSpacesSlice(z, a, b);
    SliceSpaced(z, a, b);
    assert forall i :: 0 <= i < b - a ==> z[a..b][i] == z[a + i];
  }

  /** Every normalised key is lower case, trimmed, single-spaced and has a
      space on each side of every `&` not at one of its ends. */
  lemma NormalizedIsKey(value: string)
    ensures IsCategoryKey(NormalizeCategoryKey(value))
  {
    var y := SpreadAmpersands(Lower(value));
    SpreadStage(value);
    RunsStage(y);
    TrimStage(ReplaceRuns(y, IsSpace, ' '));
  }

  /** A key normalises to itself. */
  lemma KeyIsFixed(k: string)
    requires IsCategoryKey(k)
    ensures NormalizeCategoryKey(k) == k
  {
    LowerOfLower(k);
    RunsOfSpread(k);
    TrimPadded(Lead(k), k, Trail(k));
  }

  /** Normalising twice is normalising once. */
  lemma NormalizeIdempotent(value: string)
    ensures NormalizeCategoryKey(NormalizeCategoryKey(value)) == NormalizeCategoryKey(value)
  {
    NormalizedIsKey(value);
    KeyIsFixed(NormalizeCategoryKey(value));
  }

  /** Keys ignore case: values that agree after lower-casing have the same
      key. */
  lemma NormalizeIgnoresCase(a: string, b: string)
    requires Lower(a) == Lower(b)
    ensures NormalizeCategoryKey(a) == NormalizeCategoryKey(b)
  {
  }
}

/** The string primitives the source uses through `String.prototype` and
    regular expressions, over ASCII: `\s`, `\d`, `toLowerCase`,
    `toUpperCase`, `trim`, `startsWith`/`endsWith`, `join`, `indexOf` and
    "replace every run of matching characters by one character". */
module Text {
  import opened Wrappers

  /** The ASCII members of the regular-expression class `\s`. */
  predicate IsSpace(c: char) {
    c == ' ' || c == '\t' || c == '\n' || c == '\r' || c == '\U{B}' || c == '\U{C}'
  }

  /** The class `\d`. */
  predicate IsDigit(c: char) { '0' <= c <= '9' }

  predicate IsUpper(c: char) { 'A' <= c <= 'Z' }

  predicate IsLower(c: char) { 'a' <= c <= 'z' }

  function LowerChar(c: char): (r: char)
    ensures !IsUpper(r)
    ensures IsUpper(c) ==> IsLower(r)
    ensures !IsUpper(c) ==> r == c
    ensures IsSpace(r) <==> IsSpace(c)
  {
    if IsUpper(c) then (c as int + 32) as char else c
  }

  function UpperChar(c: char): (r: char)
    ensures !IsLower(r)
    ensures IsLower(c) ==> IsUpper(r)
    ensures !IsLower(c) ==> r == c
    ensures IsSpace(r) <==> IsSpace(c)
  {
    if IsLower(c) then (c as int - 32) as char else c
  }

  /** `toLowerCase()` */
  function Lower(s: string): (r: string)
    ensures |r| == |s|
    ensures forall i :: 0 <= i < |s| ==> r[i] == LowerChar(s[i])
  {
    seq(|s|, i requires 0 <= i < |s| => LowerChar(s[i]))
  }

  predicate NoUpper(s: string) {
    forall i :: 0 <= i < |s| ==> !IsUpper(s[i])
  }

  lemma LowerIsLower(s: string)
    ensures NoUpper(Lower(s))
  {
  }

  lemma LowerOfLower(s: string)
    requires NoUpper(s)
    ensures Lower(s) == s
  {
  }

  lemma LowerDistributes(a: string, b: string)
    ensures Lower(a + b) == Lower(a) + Lower(b)
  {
  }

  /** The length of the longest prefix whose characters all satisfy `p`. */
  function CountWhile(s: string, p: char -> bool): (n: nat)
    ensures n <= |s|
    ensures n < |s| ==> !p(s[n])
  {
    if s != [] && p(s[0]) then 1 + CountWhile(s[1..], p) else 0
  }

  /** The length of the longest suffix whose characters all satisfy `p`. */
  function CountWhileEnd(s: string, p: char -> bool): (n: nat)
    ensures n <= |s|
    ensures n < |s| ==> !p(s[|s| - 1 - n])
  {
    if s != [] && p(s[|s| - 1]) then 1 + CountWhileEnd(s[..|s| - 1], p) else 0
  }

  lemma {:induction false} CountWhileAll(s: string, p: char -> bool)
    ensures forall i :: 0 <= i < CountWhile(s, p) ==> p(s[i])
  {
    if s != [] && p(s[0]) {
      CountWhileAll(s[1..], p);
      forall i | 1 <= i < CountWhile(s, p) ensures p(s[i]) {
        assert s[i] == s[1..][i - 1];
      }
    }
  }

  lemma {:induction false} CountWhileEndAll(s: string, p: char -> bool)
    ensures forall i :: |s| - CountWhileEnd(s, p) <= i < |s| ==> p(s[i])
  {
    if s != [] && p(s[|s| - 1]) {
      CountWhileEndAll(s[..|s| - 1], p);
    }
  }

  /** The longest prefix whose characters all satisfy `p`. */
  function TakeWhile(s: string, p: char -> bool): (r: string)
  {
    s[..CountWhile(s, p)]
  }

  /** Drops the longest prefix whose characters all satisfy `p`. */
  function DropWhile(s: string, p: char -> bool): (r: string)
  {
    s[CountWhile(s, p)..]
  }

  /** Drops the longest suffix whose characters all satisfy `p`. */
  function DropWhileEnd(s: string, p: char -> bool): (r: string)
  {
    s[..|s| - CountWhileEnd(s, p)]
  }

  /** `trim()`: drops the leading, then the trailing whitespace. */
  function Trim(s: string): (r: string)
  {
    DropWhileEnd(DropWhile(s, IsSpace), IsSpace)
  }

  /** Lower-casing keeps every character's blankness, so it keeps the
      length of a blank run at either end. */
  lemma {:induction false} LowerCountWhile(s: string)
    ensures CountWhile(Lower(s), IsSpace) == CountWhile(s, IsSpace)
    decreases |s|
  {
    if s != [] {
      assert Lower(s)[1..] == Lower(s[1..]);
      LowerCountWhile(s[1..]);
    }
  }

  lemma {:induction false} LowerCountWhileEnd(s: string)
    ensures CountWhileEnd(Lower(s), IsSpace) == CountWhileEnd(s, IsSpace)
    decreases |s|
  {
    if s != [] {
      assert Lower(s)[..|s| - 1] == Lower(s[..|s| - 1]);
      LowerCountWhileEnd(s[..|s| - 1]);
    }
  }

  lemma LowerSuffix(s: string, k: nat)
    requires k <= |s|
    ensures Lower(s[k..]) == Lower(s)[k..]
  {
  }

  lemma LowerPrefix(s: string, k: nat)
    requires k <= |s|
    ensures Lower(s[..k]) == Lower(s)[..k]
  {
  }

  /** `toLowerCase` and `trim` commute. */
  lemma LowerTrim(s: string)
    ensures Lower(Trim(s)) == Trim(Lower(s))
  {
    var a := CountWhile(s, IsSpace);
    LowerCountWhile(s);
    var t := s[a..];
    LowerSuffix(s, a);
    var e := CountWhileEnd(t, IsSpace);
    LowerCountWhileEnd(t);
    LowerPrefix(t, |t| - e);
  }

  predicate NoEdgeSpace(s: string) {
    s != [] ==> !IsSpace(s[0]) && !IsSpace(s[|s| - 1])
  }

  /** What `trim()` keeps: a contiguous slice of `s`, starting at its first
      non-blank character and ending at its last. */
  lemma TrimSlice(s: string) returns (a: nat, b: nat)
    ensures a <= b <= |s| && Trim(s) == s[a..b]
    ensures forall i :: 0 <= i < a ==> IsSpace(s[i])
    ensures forall i :: b <= i < |s| ==> IsSpace(s[i])
    ensures a < b ==> !IsSpace(s[a]) && !IsSpace(s[b - 1])
  {
    a := CountWhile(s, IsSpace);
    var t := s[a..];
    b := |s| - CountWhileEnd(t, IsSpace);
    CountWhileAll(s, IsSpace);
    CountWhileEndAll(t, IsSpace);
    forall i | b <= i < |s| ensures IsSpace(s[i]) {
      assert s[i] == t[i - a];
    }
    SliceOfSuffix(s, a, b - a);
  }

  lemma SliceOfSuffix(s: string, a: nat, k: nat)
    requires a + k <= |s|
    ensures s[a..][..k] == s[a..a + k]
  {
  }

  lemma TrimNoEdgeSpace(s: string)
    ensures NoEdgeSpace(Trim(s))
  {
    var t := DropWhile(s, IsSpace);
    var r := Trim(s);
    if r != [] {
      assert r[0] == t[0] && r[|r| - 1] == t[|t| - 1 - CountWhileEnd(t, IsSpace)];
    }
  }

  lemma TrimOfTrimmed(s: string)
    requires NoEdgeSpace(s)
    ensures Trim(s) == s
  {
  }

  /** `trim()` keeps a string empty exactly when it is blank. */
  lemma TrimEmpty(s: string)
    ensures Trim(s) == [] <==> forall i :: 0 <= i < |s| ==> IsSpace(s[i])
  {
    var a, b := TrimSlice(s);
    if Trim(s) == [] {
      assert a == b;
      forall i | 0 <= i < |s| ensures IsSpace(s[i]) {
        if i >= a { assert i >= b; }
      }
    } else {
      assert !IsSpace(s[a]);
    }
  }

  function StartsWith(s: string, prefix: string): bool {
    |prefix| <= |s| && s[..|prefix|] == prefix
  }

  function EndsWith(s: string, suffix: string): bool {
    |suffix| <= |s| && s[|s| - |suffix|..] == suffix
  }

  /** Keeps the characters of `s` that satisfy `p`, in order:
      `replace(/[^X]/g, '')` for the class X that `p` decides. */
  function Filter(s: string, p: char -> bool): (r: string)
    ensures |r| <= |s|
    ensures forall i :: 0 <= i < |r| ==> p(r[i])
    ensures (forall i :: 0 <= i < |s| ==> p(s[i])) ==> r == s
  {
    if s == [] then []
    else if p(s[0]) then [s[0]] + Filter(s[1..], p)
    else Filter(s[1..], p)
  }

  /** `parts.join(sep)` */
  function Join(parts: seq<string>, sep: string): string {
    if parts == [] then []
    else if |parts| == 1 then parts[0]
    else parts[0] + sep + Join(parts[1..], sep)
  }

  /** Replaces every maximal run of characters satisfying `p` by the single
      character `r`: `replace(/X+/g, r)` for the class X that `p` decides. */
  function ReplaceRuns(s: string, p: char -> bool, r: char): (out: string)
    ensures s == [] <==> out == []
    ensures s != [] && p(s[0]) ==> out[0] == r
    ensures s != [] && !p(s[0]) ==> out[0] == s[0]
    ensures p(r) ==> NoRepeat(out, p)
    ensures (forall i :: 0 <= i < |s| ==> !p(s[i])) ==> out == s
    decreases |s|
  {
    if s == [] then []
    else if p(s[0]) then
      var rest := ReplaceRuns(DropWhile(s, p), p, r);
      ConsNoRepeat(r, rest, p);
      [r] + rest
    else
      var rest := ReplaceRuns(s[1..], p, r);
      ConsNoRepeat(s[0], rest, p);
      [s[0]] + rest
  }

  lemma ConsNoRepeat(c: char, t: string, p: char -> bool)
    ensures NoRepeat(t, p) && (t == [] || !(p(c) && p(t[0]))) ==> NoRepeat([c] + t, p)
  {
    if NoRepeat(t, p) && (t == [] || !(p(c) && p(t[0]))) {
      var u := [c] + t;
      forall i | 0 <= i < |u| - 1 ensures !PairAt(u, p, i) {
        if i > 0 {
          assert !PairAt(t, p, i - 1);
        }
      }
    }
  }

  /** A class `q` that holds of `r` and of every character outside the runs
      still holds of every character after replacement. */
  lemma {:induction false} ReplaceRunsKeeps(s: string, p: char -> bool, r: char, q: char -> bool)
    requires forall i :: 0 <= i < |s| ==> p(s[i]) || q(s[i])
    requires q(r)
    ensures forall i :: 0 <= i < |ReplaceRuns(s, p, r)| ==> q(ReplaceRuns(s, p, r)[i])
    decreases |s|
  {
    if s != [] {
      var rest := if p(s[0]) then DropWhile(s, p) else s[1..];
      assert rest == s[|s| - |rest|..];
      ReplaceRunsKeeps(rest, p, r, q);
    }
  }

  /** No two neighbouring characters both satisfy `p`. */
  predicate NoRepeat(s: string, p: char -> bool) {
    forall i :: 0 <= i < |s| - 1 ==> !PairAt(s, p, i)
  }

  /** The characters at `i` and `i + 1` both satisfy `p`. */
  predicate PairAt(s: string, p: char -> bool, i: int)
    requires 0 <= i < |s| - 1
  {
    p(s[i]) && p(s[i + 1])
  }

  lemma NoRepeatSlice(s: string, p: char -> bool, a: nat, b: nat)
    requires NoRepeat(s, p) && a <= b <= |s|
    ensures NoRepeat(s[a..b], p)
  {
    forall i | 0 <= i < b - a - 1
      ensures !PairAt(s[a..b], p, i)
    {
      assert !PairAt(s, p, a + i);
      assert s[a..b][i] == s[a + i] && s[a..b][i + 1] == s[a + i + 1];
    }
  }

  /** On a string whose `p`-runs are single copies of `r`, replacing runs
      changes nothing. */
  lemma {:induction false} ReplaceRunsOfSingles(s: string, p: char -> bool, r: char)
    requires NoRepeat(s, p)
    requires forall i :: 0 <= i < |s| && p(s[i]) ==> s[i] == r
    ensures ReplaceRuns(s, p, r) == s
    decreases |s|
  {
    if s != [] {
      if p(s[0]) {
        if |s| > 1 {
          assert !PairAt(s, p, 0);
          assert s[1..][0] == s[1];
        }
        assert CountWhile(s, p) == 1;
      }
      forall i | 0 <= i < |s| - 2 ensures !PairAt(s[1..], p, i) {
        assert !PairAt(s, p, i + 1);
      }
      ReplaceRunsOfSingles(s[1..], p, r);
    }
  }

  /** `t` occurs in `s` starting at index `j`. */
  predicate OccursAt(s: string, t: string, j: nat) {
    j + |t| <= |s| && s[j..j + |t|] == t
  }

  /** `s.indexOf(t, from)`: the first index at or after `from` where `t`
      occurs in `s`. */
  function IndexOfFrom(s: string, t: string, from: nat): (r: Option<nat>)
    requires from <= |s|
    ensures r.Some? ==> from <= r.value && OccursAt(s, t, r.value)
    ensures r.Some? ==> forall j :: from <= j < r.value ==> !OccursAt(s, t, j)
    ensures r.None? ==> forall j :: from <= j ==> !OccursAt(s, t, j)
    decreases |s| - from
  {
    if from + |t| > |s| then None
    else if s[from..from + |t|] == t then Some(from)
    else IndexOfFrom(s, t, from + 1)
  }

  /** An occurrence found at `j` means `includes` holds. */
  lemma OccursIncludes(s: string, t: string, j: nat)
    requires OccursAt(s, t, j)
    ensures Includes(s, t)
  {
  }

  /** An occurrence inside `m` is one inside `a + m + b`, shifted by `|a|`. */
  lemma OccursShift(a: string, m: string, b: string, t: string, j: nat)
    requires OccursAt(m, t, j)
    ensures OccursAt(a + m + b, t, |a| + j)
  {
    var s := a + m + b;
    assert s[|a| + j..|a| + j + |t|] == m[j..j + |t|];
  }

  /** Every part occurs in the joined string. */
  lemma {:induction false} JoinOccurs(parts: seq<string>, sep: string, i: nat)
    requires i < |parts|
    ensures exists k :: OccursAt(Join(parts, sep), parts[i], k)
  {
    var s := Join(parts, sep);
    if |parts| == 1 {
      assert OccursAt(s, parts[i], 0);
    } else if i == 0 {
      assert s == parts[0] + (sep + Join(parts[1..], sep));
      assert OccursAt(s, parts[0], 0);
    } else {
      JoinOccurs(parts[1..], sep, i - 1);
      var k :| OccursAt(Join(parts[1..], sep), parts[1..][i - 1], k);
      OccursShift(parts[0] + sep, Join(parts[1..], sep), [], parts[i], k);
      assert parts[0] + sep + Join(parts[1..], sep) + [] == s;
    }
  }

  /** A joined list between a head and a tail: it starts with the head,
      ends with the tail, and every part occurs in it. */
  lemma FramedJoin(head: string, parts: seq<string>, sep: string, tail: string, i: nat)
    requires i < |parts|
    ensures var s := head + Join(parts, sep) + tail;
      StartsWith(s, head) && EndsWith(s, tail) && Includes(s, parts[i])
  {
    var body := Join(parts, sep);
    var s := head + body + tail;
    JoinOccurs(parts, sep, i);
    var k :| OccursAt(body, parts[i], k);
    OccursShift(head, body, tail, parts[i], k);
    OccursIncludes(s, parts[i], |head| + k);
    assert s[..|head|] == head;
    assert s[|s| - |tail|..] == tail;
  }

  /** The count of a prefix all of whose characters pass, followed by one
      that fails, is that prefix's length. */
  lemma {:induction false} CountWhileConcat(a: string, b: string, p: char -> bool)
    requires forall i :: 0 <= i < |a| ==> p(a[i])
    requires b != [] ==> !p(b[0])
    ensures CountWhile(a + b, p) == |a|
  {
    if a == [] {
      assert a + b == b;
    } else {
      assert (a + b)[0] == a[0];
      assert (a + b)[1..] == a[1..] + b;
      CountWhileConcat(a[1..], b, p);
    }
  }

  /** `s.includes(t)` */
  predicate Includes(s: string, t: string) {
    IndexOfFrom(s, t, 0).Some?
  }

  /** Lexicographic order on code units, the order of `<` on strings. */
  predicate LexLeq(a: string, b: string)
    decreases |a|
  {
    a == [] || (b != [] && (a[0] < b[0] || (a[0] == b[0] && LexLeq(a[1..], b[1..]))))
  }

  lemma {:induction false} LexLeqTotal(a: string, b: string)
    ensures LexLeq(a, b) || LexLeq(b, a)
    decreases |a|
  {
    if a != [] && b != [] && a[0] == b[0] {
      LexLeqTotal(a[1..], b[1..]);
    }
  }

  lemma {:induction false} LexLeqTransitive(a: string, b: string, c: string)
    requires LexLeq(a, b) && LexLeq(b, c)
    ensures LexLeq(a, c)
    decreases |a|
  {
    if a != [] && b != [] && c != [] && a[0] == b[0] == c[0] {
      LexLeqTransitive(a[1..], b[1..], c[1..]);
    }
  }

  lemma {:induction false} LexLeqAntisymmetric(a: string, b: string)
    requires LexLeq(a, b) && LexLeq(b, a)
    ensures a == b
    decreases |a|
  {
    if a != [] && b != [] {
      LexLeqAntisymmetric(a[1..], b[1..]);
      assert a == [a[0]] + a[1..];
      assert b == [b[0]] + b[1..];
    }
  }

  /** Decimal digits of a natural number, as `String(n)` writes them. */
  function NatToString(n: nat): (r: string)
    ensures r != []
    ensures forall i :: 0 <= i < |r| ==> IsDigit(r[i])
    decreases n
  {
    if n < 10 then [('0' as int + n) as char]
    else NatToString(n / 10) + [('0' as int + n % 10) as char]
  }

  /** Joining non-empty parts is empty exactly when there are no parts. */
  lemma JoinEmpty(parts: seq<string>, sep: string)
    requires forall k :: 0 <= k < |parts| ==> parts[k] != []
    ensures Join(parts, sep) == [] <==> parts == []
  {
    if |parts| >= 2 {
      assert |Join(parts, sep)| >= |parts[0]|;
    }
  }

  /** `String(n)` for an integer. */
  function IntToString(n: int): (r: string)
    ensures r != []
  {
    if n < 0 then "-" + NatToString(-n) else NatToString(n)
  }
}

/** The Python `str` operations the core relies on: `isspace`, `lower`,
    `strip`, `split()` with no separator, and `replace`. */
module PyStr {

  /** Python's `str.isspace` for one character: the ASCII controls
      TAB..CR, the file/group/record/unit separators, space, NEL, NBSP and
      the Unicode space separators. */
  predicate IsSpace(c: char) {
    || c == ' '
    || ('\t' <= c <= '\r')
    || ('\U{1C}' <= c <= '\U{1F}')
    || c == '\U{85}' || c == '\U{A0}' || c == '\U{1680}'
    || ('\U{2000}' <= c <= '\U{200A}')
    || c == '\U{2028}' || c == '\U{2029}' || c == '\U{202F}'
    || c == '\U{205F}' || c == '\U{3000}'
  }

  predicate NoSpace(s: string) {
    forall i :: 0 <= i < |s| ==> !IsSpace(s[i])
  }

  predicate AllSpace(s: string) {
    forall i :: 0 <= i < |s| ==> IsSpace(s[i])
  }

  /** Lower-casing of one character (ASCII letters only). */
  function LowerChar(c: char): (d: char)
    ensures IsSpace(d) <==> IsSpace(c)
    ensures 'A' <= c <= 'Z' ==> d as int == c as int + 32
    ensures !('A' <= c <= 'Z') ==> d == c
    ensures !('A' <= d <= 'Z')
  {
    if 'A' <= c <= 'Z' then (c as int + 32) as char else c
  }

  /** `str.lower()`. */
  function Lower(s: string): (r: string)
    ensures |r| == |s|
    ensures forall i :: 0 <= i < |s| ==> r[i] == LowerChar(s[i])
    ensures forall i :: 0 <= i < |r| ==> !('A' <= r[i] <= 'Z')
  {
    seq(|s|, i requires 0 <= i < |s| => LowerChar(s[i]))
  }

  /** Length of the run of white space that starts `s`. */
  function LeadingSpace(s: string): (n: nat)
    ensures n <= |s|
    ensures forall k :: 0 <= k < n ==> IsSpace(s[k])
    ensures n == |s| || !IsSpace(s[n])
  {
    if s != [] && IsSpace(s[0]) then
      var tail := s[1..];
      assert forall k :: 0 <= k < |tail| ==> tail[k] == s[k + 1];
      1 + LeadingSpace(tail)
    else 0
  }

  /** Length of the run of white space that ends `s`. */
  function TrailingSpace(s: string): (n: nat)
    ensures n <= |s|
    ensures forall k :: |s| - n <= k < |s| ==> IsSpace(s[k])
    ensures n == |s| || !IsSpace(s[|s| - n - 1])
  {
    if s != [] && IsSpace(s[|s| - 1]) then
      var init := s[..|s| - 1];
      assert forall k :: 0 <= k < |init| ==> init[k] == s[k];
      1 + TrailingSpace(init)
    else 0
  }

  /** `str.lstrip()`: drops the leading white space. */
  function LStrip(s: string): (r: string)
    ensures r == [] || !IsSpace(r[0])
    ensures |r| <= |s| && r == s[|s| - |r|..]
    ensures forall k :: 0 <= k < |s| - |r| ==> IsSpace(s[k])
  {
    s[LeadingSpace(s)..]
  }

  /** `str.rstrip()`: drops the trailing white space. */
  function RStrip(s: string): (r: string)
    ensures r == [] || !IsSpace(r[|r| - 1])
    ensures |r| <= |s| && r == s[..|r|]
    ensures forall k :: |r| <= k < |s| ==> IsSpace(s[k])
  {
    s[..|s| - TrailingSpace(s)]
  }

  /** `str.strip()`: the text between a leading and a trailing run of white
      space, and neither end of the result is white space. */
  function Strip(s: string): (r: string)
    ensures r == [] || (!IsSpace(r[0]) && !IsSpace(r[|r| - 1]))
    ensures exists a, b :: 0 <= a <= b <= |s| && r == s[a..b] && AllSpace(s[..a]) && AllSpace(s[b..])
  {
    var a := LeadingSpace(s);
    var b := |s| - TrailingSpace(LStrip(s));
    StripMargins(s, a, b);
    RStrip(LStrip(s))
  }

  /** Slicing the suffix `s[a..]` at `b - a` cuts `s` at `b`. */
  lemma SliceOfSuffix<T>(s: seq<T>, a: nat, b: nat)
    requires a <= b <= |s|
    ensures s[a..][..b - a] == s[a..b]
  {
  }

  /** `AllSpace` of a prefix, from its characters. */
  lemma SpacePrefix(s: string, a: nat)
    requires a <= |s|
    requires forall k :: 0 <= k < a ==> IsSpace(s[k])
    ensures AllSpace(s[..a])
  {
    var p := s[..a];
    forall k | 0 <= k < |p| ensures IsSpace(p[k]) {
      assert p[k] == s[k];
    }
  }

  /** `AllSpace` of a suffix, from its characters. */
  lemma SpaceSuffix(s: string, b: nat)
    requires b <= |s|
    requires forall k :: b <= k < |s| ==> IsSpace(s[k])
    ensures AllSpace(s[b..])
  {
    var q := s[b..];
    forall k | 0 <= k < |q| ensures IsSpace(q[k]) {
      assert q[k] == s[b + k];
    }
  }

  /** The characters of a white-space prefix and suffix. */
  lemma SpaceMargins(s: string, a: nat, b: nat)
    requires a <= b <= |s| && AllSpace(s[..a]) && AllSpace(s[b..])
    ensures forall k :: 0 <= k < a ==> IsSpace(s[k])
    ensures forall k :: b <= k < |s| ==> IsSpace(s[k])
  {
    var p, q := s[..a], s[b..];
    assert forall k :: 0 <= k < a ==> s[k] == p[k];
    forall k | b <= k < |s| ensures IsSpace(s[k]) {
      assert s[k] == q[k - b];
    }
  }

  /** The two margins `Strip` removes: the leading run of white space and
      the trailing run of what is left. */
  lemma StripMargins(s: string, a: nat, b: nat)
    requires a == LeadingSpace(s) && b == |s| - TrailingSpace(LStrip(s))
    ensures a <= b <= |s|
    ensures RStrip(LStrip(s)) == s[a..b]
    ensures AllSpace(s[..a]) && AllSpace(s[b..])
    ensures a == b || (!IsSpace(s[a]) && !IsSpace(s[b - 1]))
  {
    StripSlice(s, a, b);
    SpacePrefix(s, a);
    StripRightMargin(s, a, b);
    StripEnds(s, a, b);
  }

  lemma StripSlice(s: string, a: nat, b: nat)
    requires a == LeadingSpace(s) && b == |s| - TrailingSpace(LStrip(s))
    ensures a <= b <= |s|
    ensures RStrip(LStrip(s)) == s[a..b]
  {
    var l := LStrip(s);
    assert l == s[a..];
    assert RStrip(l) == l[..b - a];
    SliceOfSuffix(s, a, b);
  }

  lemma StripRightMargin(s: string, a: nat, b: nat)
    requires a == LeadingSpace(s) && b == |s| - TrailingSpace(LStrip(s))
    ensures AllSpace(s[b..])
  {
    var l := LStrip(s);
    assert l == s[a..];
    TrailingOfSuffix(s, a, TrailingSpace(l));
    SpaceSuffix(s, b);
  }

  lemma StripEnds(s: string, a: nat, b: nat)
    requires a == LeadingSpace(s) && b == |s| - TrailingSpace(LStrip(s))
    ensures a == b || (!IsSpace(s[a]) && !IsSpace(s[b - 1]))
  {
    var l := LStrip(s);
    assert l == s[a..];
    TrailingOfSuffix(s, a, TrailingSpace(l));
  }

  /** The trailing white space of a suffix `s[a..]`, as indices of `s`. */
  lemma TrailingOfSuffix(s: string, a: nat, t: nat)
    requires a <= |s| && t == TrailingSpace(s[a..])
    ensures forall k :: |s| - t <= k < |s| ==> IsSpace(s[k])
    ensures t == |s| - a || !IsSpace(s[|s| - t - 1])
  {
    var l := s[a..];
    assert forall k :: |s| - t <= k < |s| ==> s[k] == l[k - a];
  }

  lemma {:induction false} LeadingSpaceIs(s: string, a: nat)
    requires a <= |s| && (forall k :: 0 <= k < a ==> IsSpace(s[k])) && (a == |s| || !IsSpace(s[a]))
    ensures LeadingSpace(s) == a
    decreases a
  {
    if a > 0 {
      var tail := s[1..];
      assert forall k :: 0 <= k < |tail| ==> tail[k] == s[k + 1];
      LeadingSpaceIs(tail, a - 1);
    }
  }

  lemma {:induction false} TrailingSpaceIs(s: string, t: nat)
    requires t <= |s| && (forall k :: |s| - t <= k < |s| ==> IsSpace(s[k]))
    requires t == |s| || !IsSpace(s[|s| - t - 1])
    ensures TrailingSpace(s) == t
    decreases t
  {
    if t > 0 {
      var init := s[..|s| - 1];
      assert forall k :: 0 <= k < |init| ==> init[k] == s[k];
      TrailingSpaceIs(init, t - 1);
    }
  }

  /** The margins `str.strip()` removes are determined: any text between
      two runs of white space, with no white space at either end, is the
      strip of the whole. */
  lemma StripUnique(s: string, a: nat, b: nat)
    requires a <= b <= |s| && AllSpace(s[..a]) && AllSpace(s[b..])
    requires a == b || (!IsSpace(s[a]) && !IsSpace(s[b - 1]))
    ensures Strip(s) == s[a..b]
  {
    SpaceMargins(s, a, b);
    if a == b {
      LeadingSpaceIs(s, |s|);
      assert LStrip(s) == [];
    } else {
      LeadingSpaceIs(s, a);
      var l := s[a..];
      assert LStrip(s) == l;
      assert forall k :: 0 <= k < |l| ==> l[k] == s[a + k];
      TrailingSpaceIs(l, |s| - b);
      StripMargins(s, a, b);
    }
  }

  /** Length of the run of non-space characters that starts `s`. */
  function WordLength(s: string): (n: nat)
    ensures n <= |s|
    ensures NoSpace(s[..n])
    ensures n == |s| || IsSpace(s[n])
  {
    if s == [] || IsSpace(s[0]) then 0 else 1 + WordLength(s[1..])
  }

  /** `str.split()` with no separator: the maximal runs of non-space
      characters, in order; runs of white space separate words and leading or
      trailing white space yields no empty word. */
  function Split(s: string): (words: seq<string>)
    ensures forall k :: 0 <= k < |words| ==> words[k] != [] && NoSpace(words[k])
    ensures words == [] <==> AllSpace(s)
    decreases |s|
  {
    if s == [] then []
    else if IsSpace(s[0]) then Split(s[1..])
    else
      var n := WordLength(s);
      [s[..n]] + Split(s[n..])
  }

  /** `split()` drops white space between words. */
  lemma SplitSkipsSpace(c: char, s: string)
    requires IsSpace(c)
    ensures Split([c] + s) == Split(s)
  {
    assert ([c] + s)[1..] == s;
  }

  lemma {:induction false} WordLengthOf(w: string, s: string)
    requires NoSpace(w)
    requires s == [] || IsSpace(s[0])
    ensures WordLength(w + s) == |w|
    decreases |w|
  {
    if w == [] {
      assert w + s == s;
    } else {
      assert (w + s)[0] == w[0];
      assert (w + s)[1..] == w[1..] + s;
      WordLengthOf(w[1..], s);
    }
  }

  /** `split()` takes a word whole, up to the white space after it. */
  lemma SplitTakesWord(w: string, s: string)
    requires w != [] && NoSpace(w)
    requires s == [] || IsSpace(s[0])
    ensures Split(w + s) == [w] + Split(s)
  {
    WordLengthOf(w, s);
    assert (w + s)[0] == w[0];
    assert (w + s)[..|w|] == w && (w + s)[|w|..] == s;
  }

  /** `p` occurs in `s` starting at index `i`. */
  ghost predicate OccursAt(s: string, p: string, i: nat) {
    i + |p| <= |s| && s[i..i + |p|] == p
  }

  ghost predicate Occurs(s: string, p: string) {
    exists i: nat :: OccursAt(s, p, i)
  }

  /** `s.replace(pat, rep)` for a non-empty `pat`: scans left to right and
      replaces every non-overlapping occurrence; the replacement text is not
      scanned again. Replacing a pattern by itself changes nothing. */
  function Replace(s: string, pat: string, rep: string): (r: string)
    requires pat != []
    ensures rep == pat ==> r == s
    decreases |s|
  {
    if |s| < |pat| then s
    else if s[..|pat|] == pat then
      assert s[..|pat|] + s[|pat|..] == s;
      rep + Replace(s[|pat|..], pat, rep)
    else
      assert [s[0]] + s[1..] == s;
      [s[0]] + Replace(s[1..], pat, rep)
  }

  /** A string without the pattern is returned unchanged. */
  lemma {:induction false} ReplaceAbsent(s: string, pat: string, rep: string)
    requires pat != []
    requires !Occurs(s, pat)
    ensures Replace(s, pat, rep) == s
    decreases |s|
  {
    if |s| >= |pat| {
      assert !OccursAt(s, pat, 0);
      assert s[..|pat|] != pat;
      forall i: nat ensures !OccursAt(s[1..], pat, i) {
        assert !OccursAt(s, pat, i + 1);
        if i + |pat| <= |s[1..]| {
          assert s[1..][i..i + |pat|] == s[i + 1..i + 1 + |pat|];
        }
      }
      ReplaceAbsent(s[1..], pat, rep);
      assert [s[0]] + s[1..] == s;
    }
  }

  /** `ReplaceAbsent` as an implication, for use inside expressions. */
  lemma ReplaceAbsentWhen(s: string, pat: string, rep: string)
    requires pat != []
    ensures !Occurs(s, pat) ==> Replace(s, pat, rep) == s
  {
    if !Occurs(s, pat) {
      ReplaceAbsent(s, pat, rep);
    }
  }

  /** A prefix that cannot start the pattern (its first character does not
      occur in it) is copied unchanged. */
  lemma {:induction false} ReplaceSkips(x: string, y: string, pat: string, rep: string)
    requires pat != []
    requires pat[0] !in x
    ensures Replace(x + y, pat, rep) == x + Replace(y, pat, rep)
    decreases |x|, 1
  {
    if x == [] {
      assert x + y == y;
    } else if |x + y| < |pat| {
      ReplaceAbsentShort(x + y, pat, rep);
      ReplaceAbsentShort(y, pat, rep);
    } else {
      ReplaceSkipsStep(x, y, pat, rep);
    }
  }

  lemma {:induction false} ReplaceSkipsStep(x: string, y: string, pat: string, rep: string)
    requires pat != [] && x != [] && |x + y| >= |pat|
    requires pat[0] !in x
    ensures Replace(x + y, pat, rep) == x + Replace(y, pat, rep)
    decreases |x|, 0
  {
    ReplaceKeepsHead(x, y, pat, rep);
    ReplaceSkips(x[1..], y, pat, rep);
    assert [x[0]] + (x[1..] + Replace(y, pat, rep)) == x + Replace(y, pat, rep);
  }

  /** A head character other than the pattern's first is kept. */
  lemma ReplaceKeepsHead(x: string, y: string, pat: string, rep: string)
    requires pat != [] && x != [] && x[0] != pat[0] && |x + y| >= |pat|
    ensures Replace(x + y, pat, rep) == [x[0]] + Replace(x[1..] + y, pat, rep)
  {
    var s := x + y;
    assert s[..|pat|][0] == x[0];
    assert s[1..] == x[1..] + y;
  }

  lemma ReplaceAbsentShort(y: string, pat: string, rep: string)
    requires pat != [] && |y| < |pat|
    ensures Replace(y, pat, rep) == y
  {
  }

  /** An occurrence of the pattern at the head is replaced, and the scan
      resumes after it. */
  lemma ReplaceHead(y: string, pat: string, rep: string)
    requires pat != []
    ensures Replace(pat + y, pat, rep) == rep + Replace(y, pat, rep)
  {
    var s := pat + y;
    assert s[..|pat|] == pat;
    assert s[|pat|..] == y;
  }

  /** A head character that cannot begin an occurrence is kept. */
  lemma ReplaceHeadMismatch(y: string, pat: string, rep: string)
    requires |pat| >= 2 && |y| >= 2
    requires y[1] != pat[1]
    ensures Replace(y, pat, rep) == [y[0]] + Replace(y[1..], pat, rep)
  {
    if |y| >= |pat| {
      assert y[..|pat|][1] == y[1];
    }
  }

  lemma LowerIdempotent(s: string)
    ensures Lower(Lower(s)) == Lower(s)
  {
  }

  lemma LeadingSpaceLower(s: string)
    ensures LeadingSpace(Lower(s)) == LeadingSpace(s)
  {
    LeadingSpaceIs(Lower(s), LeadingSpace(s));
  }

  lemma TrailingSpaceLower(s: string)
    ensures TrailingSpace(Lower(s)) == TrailingSpace(s)
  {
    TrailingSpaceIs(Lower(s), TrailingSpace(s));
  }

  /** `Lower` works character by character, so it commutes with slicing. */
  lemma LowerSlice(s: string, a: nat, b: nat)
    requires a <= b <= |s|
    ensures Lower(s)[a..b] == Lower(s[a..b])
  {
  }

  lemma LStripLower(s: string)
    ensures LStrip(Lower(s)) == Lower(LStrip(s))
  {
    LeadingSpaceLower(s);
    var a := LeadingSpace(s);
    LowerSlice(s, a, |s|);
    assert s[a..|s|] == s[a..] && Lower(s)[a..|s|] == Lower(s)[a..];
  }

  lemma RStripLower(s: string)
    ensures RStrip(Lower(s)) == Lower(RStrip(s))
  {
    TrailingSpaceLower(s);
    var b := |s| - TrailingSpace(s);
    LowerSlice(s, 0, b);
    assert s[0..b] == s[..b] && Lower(s)[0..b] == Lower(s)[..b];
  }

  /** Lower-casing and stripping commute. */
  lemma StripLower(s: string)
    ensures Lower(Strip(s)) == Strip(Lower(s))
  {
    LStripLower(s);
    RStripLower(LStrip(s));
  }

  /** A text with no white space at either end is its own strip. */
  lemma StripOfStripped(t: string)
    requires t == [] || (!IsSpace(t[0]) && !IsSpace(t[|t| - 1]))
    ensures Strip(t) == t
  {
    assert t[..0] == [] && t[|t|..] == [] && t[0..|t|] == t;
    StripUnique(t, 0, |t|);
  }
}

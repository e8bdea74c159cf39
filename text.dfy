/** String helpers of the minutes list: the JavaScript `\s` class, prefix
    tests, the `replace(/\s+/g, '-')` used for the saved file name,
    `String.prototype.includes` and the `<` order on strings. */
module Text {

  /** ECMAScript `\s`: the WhiteSpace and LineTerminator code points. */
  predicate IsSpace(c: char) {
    c == '\t' || c == '\n' || c == '\U{000B}' || c == '\U{000C}' || c == '\r'
    || c == ' ' || c == '\U{00A0}' || c == '\U{1680}'
    || ('\U{2000}' <= c <= '\U{200A}')
    || c == '\U{2028}' || c == '\U{2029}' || c == '\U{202F}' || c == '\U{205F}'
    || c == '\U{3000}' || c == '\U{FEFF}'
  }

  predicate NoSpace(s: string) {
    forall i :: 0 <= i < |s| ==> !IsSpace(s[i])
  }

  predicate AllSpace(s: string) {
    forall i :: 0 <= i < |s| ==> IsSpace(s[i])
  }

  /** `s.startsWith(prefix)`. */
  predicate StartsWith(s: string, prefix: string) {
    |prefix| <= |s| && s[..|prefix|] == prefix
  }

  /** `isImage`: an attachment is an image when its path is a `data:image` URL. */
  function IsImage(path: string): (r: bool)
    ensures r <==> |path| >= 10 && path[..10] == "data:image"
  {
    StartsWith(path, "data:image")
  }

  /** Global greedy `replace(/\s+/g, '-')`, scanning left to right; `inRun`
      says whether the previous character was whitespace (and so already
      produced the run's dash). */
  function CollapseRuns(s: string, inRun: bool): (r: string)
    ensures |r| <= |s|
    ensures s != [] && !inRun ==> r != []
  {
    if s == [] then [] else Piece(s[0], inRun) + CollapseRuns(s[1..], IsSpace(s[0]))
  }

  /** What one character becomes: itself, the run's dash, or nothing
      inside a run. */
  function Piece(c: char, inRun: bool): (r: string)
    ensures NoSpace(r)
  {
    if !IsSpace(c) then [c] else if inRun then "" else "-"
  }

  /** `s.replace(/\s+/g, '-')`. */
  function ReplaceWhitespace(s: string): (r: string)
    ensures NoSpace(r)
    ensures |r| <= |s| && (s != [] ==> r != [])
    ensures NoSpace(s) ==> r == s
  {
    CollapseRunsHasNoSpace(s, false);
    if NoSpace(s) then CollapseRunsIdentity(s, false); CollapseRuns(s, false)
    else CollapseRuns(s, false)
  }

  /** Whether the scan is inside a whitespace run after reading `a`. */
  function EndsInRun(a: string, inRun: bool): bool {
    if a == [] then inRun else IsSpace(a[|a| - 1])
  }

  lemma {:induction false} CollapseRunsHasNoSpace(s: string, inRun: bool)
    ensures NoSpace(CollapseRuns(s, inRun))
  {
    if s != [] {
      CollapseRunsHasNoSpace(s[1..], IsSpace(s[0]));
      var head, rest := Piece(s[0], inRun), CollapseRuns(s[1..], IsSpace(s[0]));
      assert forall i :: 0 <= i < |head + rest| ==> (head + rest)[i] == if i < |head| then head[i] else rest[i - |head|];
    }
  }

  /** A title without whitespace passes through unchanged. */
  lemma {:induction false} CollapseRunsIdentity(s: string, inRun: bool)
    requires NoSpace(s)
    ensures CollapseRuns(s, inRun) == s
  {
    if s != [] {
      assert !IsSpace(s[0]);
      assert NoSpace(s[1..]) by {
        forall i | 0 <= i < |s[1..]| ensures !IsSpace(s[1..][i]) { assert s[1..][i] == s[i + 1]; }
      }
      CollapseRunsIdentity(s[1..], false);
      assert s == [s[0]] + s[1..];
    }
  }

  /** The scan is compositional: the second part continues in the run state
      the first part ends in. */
  lemma {:induction false} CollapseRunsAppend(a: string, t: string, inRun: bool)
    ensures CollapseRuns(a + t, inRun) == CollapseRuns(a, inRun) + CollapseRuns(t, EndsInRun(a, inRun))
  {
    if a != [] {
      var run := IsSpace(a[0]);
      var head := Piece(a[0], inRun);
      assert (a + t)[0] == a[0];
      assert (a + t)[1..] == a[1..] + t;
      assert CollapseRuns(a + t, inRun) == head + CollapseRuns(a[1..] + t, run);
      assert CollapseRuns(a, inRun) == head + CollapseRuns(a[1..], run);
      CollapseRunsAppend(a[1..], t, run);
      assert EndsInRun(a[1..], run) == EndsInRun(a, inRun) by {
        if a[1..] != [] { assert a[1..][|a[1..]| - 1] == a[|a| - 1]; }
      }
    } else {
      assert a + t == t;
    }
  }

  /** Inside a run, a further stretch of whitespace produces nothing. */
  lemma {:induction false} CollapseRunsSkipsRun(w: string, t: string)
    requires AllSpace(w)
    ensures CollapseRuns(w + t, true) == CollapseRuns(t, true)
  {
    if w != [] {
      assert (w + t)[0] == w[0];
      assert (w + t)[1..] == w[1..] + t;
      assert AllSpace(w[1..]) by {
        forall i | 0 <= i < |w[1..]| ensures IsSpace(w[1..][i]) { assert w[1..][i] == w[i + 1]; }
      }
      CollapseRunsSkipsRun(w[1..], t);
    } else {
      assert w + t == t;
    }
  }

  /** A maximal whitespace run between two whitespace-free parts becomes a
      single `-`, whatever its length. */
  lemma RunBecomesOneDash(a: string, w: string, b: string)
    requires NoSpace(a) && NoSpace(b) && AllSpace(w) && w != []
    ensures ReplaceWhitespace(a + w + b) == a + "-" + b
  {
    assert a + w + b == a + (w + b);
    CollapseRunsAppend(a, w + b, false);
    CollapseRunsIdentity(a, false);
    assert !EndsInRun(a, false);
    RunThenWord(w, b);
  }

  /** A leading whitespace run followed by a whitespace-free word. */
  lemma RunThenWord(w: string, b: string)
    requires NoSpace(b) && AllSpace(w) && w != []
    ensures CollapseRuns(w + b, false) == "-" + b
  {
    assert (w + b)[0] == w[0];
    assert (w + b)[1..] == w[1..] + b;
    assert AllSpace(w[1..]) by {
      forall i | 0 <= i < |w[1..]| ensures IsSpace(w[1..][i]) { assert w[1..][i] == w[i + 1]; }
    }
    CollapseRunsSkipsRun(w[1..], b);
    CollapseRunsIdentity(b, true);
  }

  /** The name the export saves under: `Notulen-<title>.pdf` with every
      whitespace run of the title replaced by `-`. */
  function FileName(title: string): (r: string)
    ensures r == "Notulen-" + ReplaceWhitespace(title) + ".pdf"
    ensures StartsWith(r, "Notulen-")
    ensures |r| >= 12 && r[|r| - 4..] == ".pdf"
    ensures title != [] ==> |r| > 12
    ensures NoSpace(r)
    ensures NoSpace(title) ==> r == "Notulen-" + title + ".pdf"
  {
    var middle := ReplaceWhitespace(title);
    var r := "Notulen-" + middle + ".pdf";
    assert forall i :: 0 <= i < |r| ==> r[i] in "Notulen-.pdf" || r[i] in middle;
    r
  }

  /** A title made of two whitespace-free words separated by a run of
      whitespace of any length is saved as `Notulen-<word>-<word>.pdf`. */
  lemma FileNameOfRun(a: string, w: string, b: string)
    requires NoSpace(a) && AllSpace(w) && w != [] && NoSpace(b)
    ensures FileName(a + w + b) == "Notulen-" + a + "-" + b + ".pdf"
  {
    RunBecomesOneDash(a, w, b);
  }

  /** `needle` occurs in `hay` starting at position `i`. */
  predicate OccursAt(hay: string, needle: string, i: int) {
    0 <= i && i + |needle| <= |hay| && hay[i..i + |needle|] == needle
  }

  /** Occurrences in `hay[1..]` are the occurrences in `hay` after position 0. */
  lemma OccursAtTail(hay: string, needle: string)
    requires hay != []
    ensures OccursAt(hay, needle, 0) <==> StartsWith(hay, needle)
    ensures (exists i :: OccursAt(hay, needle, i)) <==>
      OccursAt(hay, needle, 0) || exists i :: OccursAt(hay[1..], needle, i)
  {
    forall i | OccursAt(hay[1..], needle, i) ensures OccursAt(hay, needle, i + 1) {
      assert hay[i + 1..i + 1 + |needle|] == hay[1..][i..i + |needle|];
    }
    forall i | 0 < i && OccursAt(hay, needle, i) ensures OccursAt(hay[1..], needle, i - 1) {
      var t := hay[1..];
      forall j | 0 <= j < |needle| ensures t[i - 1..i - 1 + |needle|][j] == needle[j] {
        assert hay[i..i + |needle|][j] == needle[j];
      }
    }
  }

  /** `hay.includes(needle)`: the needle occurs somewhere in the hay. */
  function Contains(hay: string, needle: string): (r: bool)
    ensures r <==> exists i :: OccursAt(hay, needle, i)
  {
    if hay == [] then
      assert forall i :: OccursAt(hay, needle, i) ==> i == 0 && needle == [];
      assert needle == [] ==> OccursAt(hay, needle, 0);
      StartsWith(hay, needle)
    else
      OccursAtTail(hay, needle);
      StartsWith(hay, needle) || Contains(hay[1..], needle)
  }

  /** The first difference between `a` and `b` is at `k`, where `a` has the
      smaller character. */
  predicate DiffersFirstAt(a: string, b: string, k: int) {
    0 <= k < |a| && k < |b| && a[..k] == b[..k] && a[k] < b[k]
  }

  /** Lexicographic order, stated directly: `a` is a proper prefix of `b`, or
      `a` has the smaller character at the first position they differ. */
  ghost predicate LexBelow(a: string, b: string) {
    (|a| < |b| && b[..|a|] == a) || exists k :: DiffersFirstAt(a, b, k)
  }

  /** Dropping a common first character does not change the order. */
  lemma LexBelowTail(a: string, b: string)
    requires a != [] && b != [] && a[0] == b[0]
    ensures LexBelow(a, b) <==> LexBelow(a[1..], b[1..])
  {
    assert (|a| < |b| && b[..|a|] == a) <==> (|a[1..]| < |b[1..]| && b[1..][..|a[1..]|] == a[1..]) by {
      if |a| < |b| {
        assert b[..|a|] == [b[0]] + b[1..][..|a[1..]|];
        assert a == [a[0]] + a[1..];
      }
    }
    forall k | DiffersFirstAt(a[1..], b[1..], k) ensures DiffersFirstAt(a, b, k + 1) {
      assert a[..k + 1] == [a[0]] + a[1..][..k];
      assert b[..k + 1] == [b[0]] + b[1..][..k];
    }
    forall k | DiffersFirstAt(a, b, k) ensures k > 0 && DiffersFirstAt(a[1..], b[1..], k - 1) {
      if k > 0 {
        assert a[1..][..k - 1] == a[..k][1..];
        assert b[1..][..k - 1] == b[..k][1..];
      }
    }
  }

  /** Different first characters decide the order. */
  lemma LexBelowHead(a: string, b: string)
    requires a != [] && b != [] && a[0] != b[0]
    ensures LexBelow(a, b) <==> a[0] < b[0]
  {
    assert a[0] < b[0] ==> DiffersFirstAt(a, b, 0);
    forall k | 0 < k <= |a| && k <= |b| ensures a[..k][0] == a[0] && b[..k][0] == b[0] {
    }
    assert |a| < |b| ==> b[..|a|][0] == b[0];
  }

  /** JavaScript `a < b` on strings, compared character by character. */
  function LexLess(a: string, b: string): (r: bool)
    ensures r <==> LexBelow(a, b)
  {
    if a == [] then assert b != [] ==> b[..0] == a; b != []
    else if b == [] then false
    else if a[0] != b[0] then LexBelowHead(a, b); a[0] < b[0]
    else LexBelowTail(a, b); LexLess(a[1..], b[1..])
  }

  /** `a <= b` on strings: equal, or strictly below. */
  function LexLe(a: string, b: string): (r: bool)
    ensures r <==> a == b || LexLess(a, b)
  {
    LexLessTotal(a, b);
    if LexLess(a, b) then LexLessAsymmetric(a, b); true
    else (LexLessIrreflexive(a); !LexLess(b, a))
  }

  lemma {:induction false} LexLessIrreflexive(a: string)
    ensures !LexLess(a, a)
  {
    if a != [] { LexLessIrreflexive(a[1..]); }
  }

  lemma {:induction false} LexLessTotal(a: string, b: string)
    ensures a == b || LexLess(a, b) || LexLess(b, a)
  {
    if a != [] && b != [] && a[0] == b[0] {
      LexLessTotal(a[1..], b[1..]);
      if a[1..] == b[1..] {
        assert a == [a[0]] + a[1..] && b == [b[0]] + b[1..];
      }
    }
  }

  lemma {:induction false} LexLessTransitive(a: string, b: string, c: string)
    requires LexLess(a, b) && LexLess(b, c)
    ensures LexLess(a, c)
  {
    if a != [] && b != [] && c != [] && a[0] == b[0] && b[0] == c[0] {
      LexLessTransitive(a[1..], b[1..], c[1..]);
    }
  }

  lemma {:induction false} LexLessAsymmetric(a: string, b: string)
    requires LexLess(a, b)
    ensures !LexLess(b, a)
  {
    if a != [] && b != [] && a[0] == b[0] {
      LexLessAsymmetric(a[1..], b[1..]);
    }
  }

  /** `<=` on strings is transitive: the date bounds of the list compose. */
  lemma LexLeTransitive(a: string, b: string, c: string)
    requires LexLe(a, b) && LexLe(b, c)
    ensures LexLe(a, c)
  {
    LexLessTotal(a, b);
    LexLessTotal(b, c);
    if a != b && b != c {
      LexLessTransitive(a, b, c);
      LexLessAsymmetric(a, c);
    }
  }
}
